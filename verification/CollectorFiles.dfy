/** The result files on disk and the engine's map of published results, in every interleaving. */
module CollectorFiles {
  import opened Wrappers
  import opened ScenarioMapping
  import opened ArtifactNames
  import opened Collector
  import opened CollectorInvariants

  /** The result a call has written a file for, but not published yet. */
  function Held(s: State, phase: Phase): Option<TestResult> {
    match phase
    case Written(result) => Some(result)
    case Recording(next) => if next < |s.output| then Some(s.output[next].artifact.result) else None
    case _ => None
  }

  function Unpublished(s: State, phase: Phase): Option<string> {
    if Held(s, phase).Some? then Some(Held(s, phase).value.uuid) else None
  }

  predicate IsOwned(s: State, name: string) {
    exists i ::
      0 <= i < |s.phases| && Unpublished(s, s.phases[i]).Some? && name == ResultName(Unpublished(s, s.phases[i]).value)
  }

  function ResultNames(uuids: set<string>): set<string> {
    set u <- uuids :: ResultName(u)
  }

  /** Each file belongs to a published result or to a call about to publish it; when streaming, the converse too. */
  ghost predicate FilesAgree(sys: System, s: State) {
    && (forall name <- s.files :: name in ResultNames(s.shared.results.Keys) || IsOwned(s, name))
    && (sys.streaming ==> forall u <- s.shared.results :: ResultName(u) in s.files)
    && (sys.streaming ==> forall i :: 0 <= i < |s.phases| && Unpublished(s, s.phases[i]).Some? ==>
          ResultName(Unpublished(s, s.phases[i]).value) in s.files)
  }

  /** A step writes the file of the result it is about to publish, or publishes what it had written. */
  ghost predicate Writes(sys: System, s: State, phase: Phase, s': State, phase': Phase) {
    var before, after := Unpublished(s, phase), Unpublished(s', phase');
    && (s'.files == s.files || (after.Some? && s'.files.Keys == s.files.Keys + {ResultName(after.value)}))
    && s'.shared.results.Keys == s.shared.results.Keys + (if before.Some? then {before.value} else {})
    && (sys.streaming && after.Some? ==> ResultName(after.value) in s'.files)
    && (s'.output == s.output || phase.MappingSuite?)
  }

  lemma ScenarioStepWrites(sys: System, request: Request, s: State, phase: Phase, s': State, phase': Phase)
    requires ScenarioStep(sys, request, s, phase, s', phase')
    ensures Writes(sys, s, phase, s', phase')
  {
  }

  lemma FinalizeStepWrites(sys: System, s: State, phase: Phase, s': State, phase': Phase)
    requires FinalizeStep(sys, s, phase, s', phase')
    ensures Writes(sys, s, phase, s', phase')
  {
  }

  lemma LookingTouchesNothing(sys: System, s: State, phase: Phase, s': State, phase': Phase)
    requires InterruptStep(sys, s, phase, s', phase') && (phase.Idle? || phase.MarkingInterrupted?)
    ensures s'.files == s.files && s'.shared.results == s.shared.results && s'.output == s.output
    ensures phase'.Finished? || phase'.MarkingInterrupted? || phase'.Forwarding?
  {
  }

  lemma TouchingNothingWrites(sys: System, s: State, phase: Phase, s': State, phase': Phase)
    requires s'.files == s.files && s'.shared.results == s.shared.results && s'.output == s.output
    requires Unpublished(s, phase).None? && Unpublished(s', phase').None?
    ensures Writes(sys, s, phase, s', phase')
  {
  }

  lemma ForwardedStep(sys: System, s: State, phase: Phase, s': State, phase': Phase)
    requires InterruptStep(sys, s, phase, s', phase') && !phase.Idle? && !phase.MarkingInterrupted?
    ensures FinalizeStep(sys, s, phase, s', phase')
  {
  }

  lemma InterruptStepWrites(sys: System, s: State, phase: Phase, s': State, phase': Phase)
    requires InterruptStep(sys, s, phase, s', phase')
    ensures Writes(sys, s, phase, s', phase')
  {
    if phase.Idle? || phase.MarkingInterrupted? {
      LookingTouchesNothing(sys, s, phase, s', phase');
      TouchingNothingWrites(sys, s, phase, s', phase');
    } else {
      ForwardedStep(sys, s, phase, s', phase');
      FinalizeStepWrites(sys, s, phase, s', phase');
    }
  }

  lemma StepWrites(sys: System, s: State, s': State, id: nat)
    requires StepBy(sys, s, s', id)
    ensures Writes(sys, s, s.phases[id], s', s'.phases[id])
  {
    match sys.calls[id]
    case ScenarioCall(request) => ScenarioStepWrites(sys, request, s, s.phases[id], s'.(late := s.late), s'.phases[id]);
    case FinalizeCall => FinalizeStepWrites(sys, s, s.phases[id], s', s'.phases[id]);
    case InterruptCall => InterruptStepWrites(sys, s, s.phases[id], s', s'.phases[id]);
  }

  lemma WritesKeepFiles(sys: System, s: State, s': State, id: nat)
    requires FilesAgree(sys, s) && |s'.phases| == |s.phases| && id < |s.phases|
    requires Writes(sys, s, s.phases[id], s', s'.phases[id])
    requires forall i :: 0 <= i < |s.phases| && i != id ==> Unpublished(s', s'.phases[i]) == Unpublished(s, s.phases[i])
    ensures FilesAgree(sys, s')
  {
  }

  lemma StepKeepsFiles(sys: System, s: State, s': State, id: nat)
    requires FinalizesOnce(sys, s) && FilesAgree(sys, s) && StepBy(sys, s, s', id)
    ensures FilesAgree(sys, s')
  {
    StepWrites(sys, s, s', id);
    OthersStay(sys, s, s', id);
    WritesKeepFiles(sys, s, s', id);
  }

  lemma {:induction false} RunKeepsFiles(sys: System, run: seq<State>, n: nat)
    requires IsRun(sys, run) && n < |run|
    ensures FilesAgree(sys, run[n])
  {
    if n > 0 {
      RunKeepsFiles(sys, run, n - 1);
      RunMoves(sys, run, n - 1);
      if EventStep(run[n - 1], run[n]) {
        EventsKeepFiles(sys, run[n - 1], run[n]);
      } else {
        var id: nat :| StepBy(sys, run[n - 1], run[n], id);
        StepKeepsFiles(sys, run[n - 1], run[n], id);
      }
    }
  }

  lemma EventsKeepFiles(sys: System, s: State, s': State)
    requires FilesAgree(sys, s) && EventStep(s, s')
    ensures FilesAgree(sys, s')
  {
    forall i | 0 <= i < |s.phases| ensures Unpublished(s', s'.phases[i]) == Unpublished(s, s.phases[i]) {
    }
  }

  predicate NothingPending(s: State) {
    forall i :: 0 <= i < |s.phases| ==> Unpublished(s, s.phases[i]).None?
  }

  /**
   * Streaming: in every reachable state in which no call stands between writing and publishing a result,
   * the result files on disk are exactly those of the published results, whichever writes failed.
   */
  lemma FilesAreThePublishedResults(sys: System, run: seq<State>, n: nat)
    requires IsRun(sys, run) && n < |run| && sys.streaming && NothingPending(run[n])
    ensures run[n].files.Keys == ResultNames(run[n].shared.results.Keys)
  {
    RunKeepsFiles(sys, run, n);
  }

  /** In either mode, no result file is left behind that no call publishes. */
  lemma NoOrphanFiles(sys: System, run: seq<State>, n: nat)
    requires IsRun(sys, run) && n < |run| && NothingPending(run[n])
    ensures run[n].files.Keys <= ResultNames(run[n].shared.results.Keys)
  {
    RunKeepsFiles(sys, run, n);
  }
}
