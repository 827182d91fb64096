/** Where the times of live results come from: the scenario-end event that registered them. */
module LiveTimes {
  import opened Int64
  import opened Wrappers
  import opened Timing
  import opened ScenarioMapping
  import opened Collector
  import opened CollectorInvariants

  /** In the step after state `m`, call `i` registers the result that its mapping and its start event make. */
  ghost predicate RegistersAt(sys: System, run: seq<State>, m: nat, i: nat, now: int64, mapped: TestResult,
                              result: TestResult) {
    && m + 1 < |run| && i < |sys.calls| == |run[m].phases| == |run[m + 1].phases| && sys.calls[i].ScenarioCall?
    && (run[m].phases[i] == Mapped(mapped) || run[m].phases[i] == Remapped(mapped))
    && IsCorrected(run[m].shared.starts, sys.calls[i].request.startKey, mapped, now, result)
    && run[m + 1].phases[i] == Reserved(result)
    && run[m + 1].shared.starts == run[m].shared.starts - {sys.calls[i].request.startKey}
    && IsRegistered(run[m + 1].shared, sys.calls[i].request, result)
  }

  /** The key has the UUID and the lifecycle data of this result. */
  predicate IsRegistered(shared: Shared, request: Request, result: TestResult) {
    && request.key in shared.uuids && shared.uuids[request.key] == result.uuid
    && request.key in shared.live
    && shared.live[request.key] ==
       LiveInfo(Range(result.start, result.stop), request.stream, request.runner, request.retry)
  }

  lemma StepRegistersAt(sys: System, run: seq<State>, m: nat, id: nat) returns (now: int64, mapped: TestResult)
    requires m + 1 < |run| && StepBy(sys, run[m], run[m + 1], id)
    requires run[m + 1].phases[id].Reserved?
    ensures RegistersAt(sys, run, m, id, now, mapped, run[m + 1].phases[id].result)
  {
    var s, s', request := run[m], run[m + 1], sys.calls[id].request;
    mapped := s.phases[id].result;
    now :| && s'.(late := s.late) == s.(phases := s'.phases, shared := Reserve(s.shared, request, mapped, now))
           && s'.phases[id] == Reserved(Restarted(s.shared.starts, request.startKey, mapped, now));
    RestartedIsCorrected(s.shared.starts, request.startKey, mapped, now);
  }

  lemma ScenarioStepKeepsLive(sys: System, request: Request, s: State, phase: Phase, s': State, phase': Phase,
                              key: string)
    requires ScenarioStep(sys, request, s, phase, s', phase') && key in s'.shared.live
    ensures (key in s.shared.live && s'.shared.live[key] == s.shared.live[key]) ||
            (phase'.Reserved? && request.key == key)
  {
  }

  lemma FinalizerStepKeepsLive(sys: System, s: State, s': State, id: nat)
    requires StepBy(sys, s, s', id) && !sys.calls[id].ScenarioCall?
    ensures s'.shared.live == s.shared.live
  {
  }

  /** A step registers a key, or leaves what is registered for it alone. */
  lemma StepKeepsLive(sys: System, s: State, s': State, id: nat, key: string)
    requires StepBy(sys, s, s', id) && key in s'.shared.live
    ensures (key in s.shared.live && s'.shared.live[key] == s.shared.live[key]) ||
            (s'.phases[id].Reserved? && sys.calls[id].ScenarioCall? && sys.calls[id].request.key == key)
  {
    if sys.calls[id].ScenarioCall? {
      ScenarioStepKeepsLive(sys, sys.calls[id].request, s, s.phases[id], s'.(late := s.late), s'.phases[id], key);
    } else {
      FinalizerStepKeepsLive(sys, s, s', id);
    }
  }

  /** Call `i` registered the key after state `m`, and nothing has changed that up to state `n`. */
  ghost predicate HoldsSince(sys: System, run: seq<State>, m: nat, i: nat, now: int64, mapped: TestResult,
                             result: TestResult, n: nat, key: string)
    requires n < |run|
  {
    && m < n && RegistersAt(sys, run, m, i, now, mapped, result) && sys.calls[i].request.key == key
    && IsRegistered(run[n].shared, sys.calls[i].request, result)
    && forall l: nat :: m < l <= n ==>
      key in run[l].shared.live && run[l].shared.live[key] == run[n].shared.live[key]
  }

  lemma HoldsOn(sys: System, run: seq<State>, m: nat, i: nat, now: int64, mapped: TestResult, result: TestResult,
                n: nat, key: string)
    requires n + 1 < |run| && HoldsSince(sys, run, m, i, now, mapped, result, n, key)
    requires key in run[n + 1].shared.live && run[n + 1].shared.live[key] == run[n].shared.live[key]
    requires forall k <- run[n].shared.uuids :: Registered(run[n + 1], k, run[n].shared.uuids[k])
    ensures HoldsSince(sys, run, m, i, now, mapped, result, n + 1, key)
  {
  }

  /**
   * In every interleaving, the lifecycle data of an attempt is that of the last scenario end that registered it: the
   * times of its mapped result, corrected by the start event that was recorded for it at that moment.
   */
  lemma {:induction false} LiveTimesComeFromTheEvent(sys: System, run: seq<State>, n: nat, key: string)
    returns (m: nat, i: nat, now: int64, mapped: TestResult, result: TestResult)
    requires IsRun(sys, run) && n < |run| && run[n].snapshot.None? && key in run[n].shared.live
    ensures HoldsSince(sys, run, m, i, now, mapped, result, n, key)
  {
    if n > 0 {
      var s, s' := run[n - 1], run[n];
      RunMoves(sys, run, n - 1);
      if key in s.shared.live && s'.shared.live[key] == s.shared.live[key] {
        m, i, now, mapped, result := LiveTimesComeFromTheEvent(sys, run, n - 1, key);
        HoldsOn(sys, run, m, i, now, mapped, result, n - 1, key);
      } else {
        i :| StepBy(sys, s, s', i);
        StepKeepsLive(sys, s, s', i, key);
        m, result := n - 1, s'.phases[i].result;
        now, mapped := StepRegistersAt(sys, run, m, i);
      }
    }
  }

  // ---------------------------------------------------------------- what the calls hold and publish

  /** The result a call holds for writing or publishing. */
  function HeldBy(phase: Phase): Option<TestResult> {
    match phase
    case Reserved(result) => Some(result)
    case Written(result) => Some(result)
    case _ => None
  }

  lemma StepKeepsHeld(sys: System, s: State, s': State, id: nat)
    requires StepBy(sys, s, s', id) && HeldBy(s'.phases[id]).Some?
    ensures sys.calls[id].ScenarioCall? && (s'.phases[id].Reserved? || HeldBy(s.phases[id]) == HeldBy(s'.phases[id]))
  {
  }

  /** Whatever a call holds, it has registered. */
  lemma {:induction false} HeldWasRegistered(sys: System, run: seq<State>, n: nat, i: nat)
    returns (m: nat, now: int64, mapped: TestResult)
    requires IsRun(sys, run) && n < |run| && i < |run[n].phases| && HeldBy(run[n].phases[i]).Some?
    ensures m < n && RegistersAt(sys, run, m, i, now, mapped, HeldBy(run[n].phases[i]).value)
  {
    if n > 0 {
      var s, s' := run[n - 1], run[n];
      RunMoves(sys, run, n - 1);
      if EventStep(s, s') || HeldBy(s.phases[i]) == HeldBy(s'.phases[i]) {
        m, now, mapped := HeldWasRegistered(sys, run, n - 1, i);
      } else {
        var id: nat :| StepBy(sys, s, s', id);
        StepKeepsHeld(sys, s, s', i);
        m := n - 1;
        now, mapped := StepRegistersAt(sys, run, m, i);
      }
    }
  }

  lemma StepPublishesHeld(sys: System, s: State, s': State, id: nat, u: string)
    requires FinalizesOnce(sys, s) && StepBy(sys, s, s', id) && s'.snapshot.None? && u in s'.shared.results
    ensures (u in s.shared.results && s'.shared.results[u] == s.shared.results[u]) ||
            HeldBy(s.phases[id]) == Some(s'.shared.results[u])
  {
    StepShape(sys, s, s', id);
  }

  /** In every interleaving, each result before Finalize is one that a scenario end registered, times included. */
  lemma {:induction false} PublishedWasRegistered(sys: System, run: seq<State>, n: nat, u: string)
    returns (m: nat, i: nat, now: int64, mapped: TestResult)
    requires IsRun(sys, run) && n < |run| && run[n].snapshot.None? && u in run[n].shared.results
    ensures m < n && RegistersAt(sys, run, m, i, now, mapped, run[n].shared.results[u])
  {
    if n > 0 {
      var s, s' := run[n - 1], run[n];
      RunMoves(sys, run, n - 1);
      if EventStep(s, s') {
        m, i, now, mapped := PublishedWasRegistered(sys, run, n - 1, u);
      } else {
        i :| StepBy(sys, s, s', i);
        StepPublishesHeld(sys, s, s', i, u);
        if u in s.shared.results && s'.shared.results[u] == s.shared.results[u] {
          m, i, now, mapped := PublishedWasRegistered(sys, run, n - 1, u);
        } else {
          m, now, mapped := HeldWasRegistered(sys, run, n - 1, i);
        }
      }
    }
  }
}
