/** internal/collector/collector.go: the critical sections of the engine, and all their interleavings. */
module Collector {
  import opened Int64
  import opened Wrappers
  import opened Timing
  import opened Identity
  import opened ScenarioMapping
  import opened ArtifactNames

  // ---------------------------------------------------------------- critical sections

  /** The maps and the flag the engine's mutex guards. */
  datatype Shared = Shared(uuids: map<string, string>, live: map<string, LiveInfo>, results: map<string, TestResult>,
                           starts: map<string, int64>, finalized: bool)

  /** A scenario-end request: the key its mapping computes, the key of its start event, its lifecycle data. */
  datatype Request = Request(key: string, startKey: string, stream: int32, runner: int32, retry: int32)

  /** Another UUID is registered for the key: the result has to be mapped again under that one. */
  predicate Conflicts(shared: Shared, key: string, uuid: string) {
    key in shared.uuids && shared.uuids[key] != "" && shared.uuids[key] != uuid
  }

  /** A recorded start event moves the start; a stop before it is replaced by the current time. */
  function Restarted(starts: map<string, int64>, startKey: string, result: TestResult, now: int64): TestResult {
    if startKey !in starts then result
    else result.(start := starts[startKey], stop := if result.stop < starts[startKey] then now else result.stop)
  }

  /**
   * The result a scenario end goes on with: the mapped one, its times corrected by the start event recorded for the
   * scenario, if there is one. A stop from before that start becomes the current time.
   */
  predicate IsCorrected(starts: map<string, int64>, startKey: string, mapped: TestResult, now: int64,
                        result: TestResult) {
    && result.(start := mapped.start, stop := mapped.stop) == mapped
    && (startKey !in starts ==> result == mapped)
    && (startKey in starts ==> result.start == starts[startKey])
    && (startKey in starts && starts[startKey] <= mapped.stop ==> result.stop == mapped.stop)
    && (startKey in starts && mapped.stop < starts[startKey] ==> result.stop == now)
  }

  /** It is corrected, and so runs forward where the mapped one did and no recorded start lies in the future. */
  lemma RestartedIsCorrected(starts: map<string, int64>, startKey: string, mapped: TestResult, now: int64)
    ensures IsCorrected(starts, startKey, mapped, now, Restarted(starts, startKey, mapped, now))
    ensures mapped.start <= mapped.stop && (startKey in starts ==> starts[startKey] <= now) ==>
              Restarted(starts, startKey, mapped, now).start <= Restarted(starts, startKey, mapped, now).stop
  {
  }

  function LiveInfoOf(request: Request, result: TestResult): LiveInfo {
    LiveInfo(Range(result.start, result.stop), request.stream, request.runner, request.retry)
  }

  /** The registering part of ScenarioEnding, under the mutex. */
  function Reserve(shared: Shared, request: Request, result: TestResult, now: int64): Shared {
    var restarted := Restarted(shared.starts, request.startKey, result, now);
    shared.(uuids := shared.uuids[request.key := result.uuid],
            live := shared.live[request.key := LiveInfoOf(request, restarted)],
            starts := shared.starts - {request.startKey})
  }

  function Publish(shared: Shared, result: TestResult): Shared {
    shared.(results := shared.results[result.uuid := result])
  }

  /** What Finalize does under the mutex for one written artifact. */
  function Record(shared: Shared, artifact: Artifact): Shared {
    shared.(uuids := shared.uuids[artifact.key := artifact.result.uuid],
            results := shared.results[artifact.result.uuid := artifact.result])
  }

  // ---------------------------------------------------------------- calls and their progress

  datatype Call = ScenarioCall(request: Request) | FinalizeCall | InterruptCall

  /** A final artifact; `attempt` tells scenario attempts from synthetic results. */
  datatype Final = Final(artifact: Artifact, attempt: bool)

  datatype Phase =
    | Idle
    | Mapped(result: TestResult)      // mapped under a new UUID, mutex not taken yet
    | Remapping(uuid: string)         // conflict seen, mutex released to map again
    | Remapped(result: TestResult)    // mapped under the registered UUID, mutex not retaken yet
    | Reserved(result: TestResult)    // registered, file not written yet
    | Written(result: TestResult)     // file written, result not published yet
    | MappingSuite                    // snapshot taken, suite being mapped
    | Writing(next: nat)              // about to write final artifact `next`
    | Recording(next: nat)            // artifact `next` written, not recorded yet
    | MarkingInterrupted              // results seen, about to set the flag
    | Forwarding                      // no results seen, about to finalise without a suite
    | Finished

  /** What the finalising call copied, and how the engine stood at that moment. */
  datatype Snapshot = Snapshot(shared: Shared, files: map<string, TestResult>, quiet: bool)

  /**
   * The engine, the result files (by name), and how far each call is. Bookkeeping for the proofs:
   * the UUIDs issued so far, the snapshot, the suite's output, the artifacts that could not be written,
   * how often the suite was mapped, and whether a scenario call moved after the snapshot.
   */
  datatype State = State(shared: Shared, files: map<string, TestResult>, phases: seq<Phase>,
                         issued: set<string>, snapshot: Option<Snapshot>, output: seq<Final>, unwritten: set<nat>,
                         mappings: nat, late: bool)

  datatype System = System(streaming: bool, calls: seq<Call>)

  predicate IsInitial(sys: System, s: State) {
    && s.shared.uuids == map[] && s.shared.live == map[] && s.shared.results == map[] && !s.shared.finalized
    && s.files == map[] && |s.phases| == |sys.calls| && (forall i :: 0 <= i < |s.phases| ==> s.phases[i] == Idle)
    && s.issued == {} && s.snapshot.None? && s.output == [] && s.unwritten == {} && s.mappings == 0 && !s.late
  }

  predicate IsNew(s: State, uuid: string) {
    uuid != "" && uuid !in s.issued
  }

  /** No scenario call is under way. */
  predicate IsQuiet(sys: System, s: State) {
    |s.phases| == |sys.calls| && forall i :: 0 <= i < |s.phases| && sys.calls[i].ScenarioCall? ==>
      s.phases[i] == Idle || s.phases[i] == Finished
  }

  /** MapSuite on the copied UUIDs: attempts reuse what is registered for their key, everything else is new. */
  ghost predicate FitsSnapshot(existing: map<string, string>, issued: set<string>, output: seq<Final>) {
    && (forall i :: 0 <= i < |output| && output[i].attempt && output[i].artifact.key in existing ==>
          output[i].artifact.result.uuid == existing[output[i].artifact.key])
    && (forall i :: 0 <= i < |output| && !(output[i].attempt && output[i].artifact.key in existing) ==>
          output[i].artifact.result.uuid !in issued && output[i].artifact.result.uuid != "")
    && (forall i, j :: 0 <= i < j < |output| && !(output[i].attempt && output[i].artifact.key in existing)
                       && !(output[j].attempt && output[j].artifact.key in existing) ==>
          output[i].artifact.result.uuid != output[j].artifact.result.uuid)
  }

  function OutputUuids(output: seq<Final>): set<string> {
    set f <- output :: f.artifact.result.uuid
  }

  /** One step of a scenario call; the files and the shared state only change as shown. */
  ghost predicate ScenarioStep(sys: System, request: Request, s: State, phase: Phase, s': State, phase': Phase) {
    match phase
    case Idle =>
      || (s' == s.(phases := s'.phases) && phase' == Finished)
      || (phase'.Mapped? && IsNew(s, phase'.result.uuid) &&
          s' == s.(phases := s'.phases, issued := s.issued + {phase'.result.uuid}))
    case Mapped(result) =>
      if Conflicts(s.shared, request.key, result.uuid)
      then s' == s.(phases := s'.phases) && phase' == Remapping(s.shared.uuids[request.key])
      else Reserves(request, s, result, s', phase')
    case Remapping(uuid) =>
      s' == s.(phases := s'.phases) && (phase' == Finished || (phase'.Remapped? && phase'.result.uuid == uuid))
    case Remapped(result) => Reserves(request, s, result, s', phase')
    case Reserved(result) =>
      || (sys.streaming && s' == s.(phases := s'.phases) && phase' == Finished)
      || (s' ==
          s.(phases := s'.phases, files := if sys.streaming then s.files[ResultName(result.uuid) := result]
             else s.files)
          && phase' == Written(result))
    case Written(result) => s' == s.(phases := s'.phases, shared := Publish(s.shared, result)) && phase' == Finished
    case _ => false
  }

  ghost predicate Reserves(request: Request, s: State, result: TestResult, s': State, phase': Phase) {
    exists now: int64 {:trigger Reserve(s.shared, request, result, now)} ::
      && s' == s.(phases := s'.phases, shared := Reserve(s.shared, request, result, now))
      && phase' == Reserved(Restarted(s.shared.starts, request.startKey, result, now))
  }

  /** One step of Finalize, and of FinalizeInterrupted once it forwards to it. */
  ghost predicate FinalizeStep(sys: System, s: State, phase: Phase, s': State, phase': Phase) {
    match phase
    case Idle => Enters(sys, s, s', phase')
    case Forwarding => Enters(sys, s, s', phase')
    case MappingSuite =>
      || (s' == s.(phases := s'.phases, mappings := s.mappings + 1) && phase' == Finished)
      || (s.snapshot.Some? && FitsSnapshot(s.snapshot.value.shared.uuids, s.issued, s'.output)
          && s' == s.(phases := s'.phases, mappings := s.mappings + 1, output := s'.output,
                      issued := s.issued + OutputUuids(s'.output))
          && phase' == Writing(0))
    case Writing(next) =>
      if next >= |s.output| then s' == s.(phases := s'.phases) && phase' == Finished
      else
        var result := s.output[next].artifact.result;
        || (s' == s.(phases := s'.phases, files := s.files[ResultName(result.uuid) := result]) &&
            phase' == Recording(next))
        || (s' == s.(phases := s'.phases, unwritten := s.unwritten + {next}) && phase' == Writing(next + 1))
    case Recording(next) =>
      && next < |s.output|
      && s' == s.(phases := s'.phases, shared := Record(s.shared, s.output[next].artifact))
      && phase' == Writing(next + 1)
    case _ => false
  }

  /** The test-and-set at the start of Finalize, with its copies. */
  ghost predicate Enters(sys: System, s: State, s': State, phase': Phase) {
    if s.shared.finalized then s' == s.(phases := s'.phases) && phase' == Finished
    else
      && s' == s.(phases := s'.phases, shared := s.shared.(finalized := true),
                  snapshot := Some(Snapshot(s.shared, s.files, IsQuiet(sys, s))))
      && phase' == MappingSuite
  }

  ghost predicate InterruptStep(sys: System, s: State, phase: Phase, s': State, phase': Phase) {
    match phase
    case Idle =>
      && s' == s.(phases := s'.phases)
      && phase' == if s.shared.finalized then Finished else if |s.shared.results| > 0 then MarkingInterrupted
         else Forwarding
    case MarkingInterrupted => s' == s.(phases := s'.phases, shared := s.shared.(finalized := true)) &&
      phase' == Finished
    case _ => FinalizeStep(sys, s, phase, s', phase')
  }

  ghost predicate StepBy(sys: System, s: State, s': State, id: nat) {
    && id < |sys.calls| == |s.phases| == |s'.phases|
    && s'.phases == s.phases[id := s'.phases[id]]
    && match sys.calls[id]
       case ScenarioCall(request) =>
         ScenarioStep(sys, request, s, s.phases[id], s'.(late := s.late), s'.phases[id]) &&
           s'.late == (s.late || s.snapshot.Some?)
       case FinalizeCall => FinalizeStep(sys, s, s.phases[id], s', s'.phases[id])
       case InterruptCall => InterruptStep(sys, s, s.phases[id], s', s'.phases[id])
  }

  /** Lifecycle start and end events come and go at any time. */
  ghost predicate EventStep(s: State, s': State) {
    s' == s.(shared := s.shared.(starts := s'.shared.starts))
  }

  ghost predicate Next(sys: System, s: State, s': State) {
    EventStep(s, s') || exists id: nat {:trigger StepBy(sys, s, s', id)} :: StepBy(sys, s, s', id)
  }

  ghost predicate StepsAt(sys: System, run: seq<State>, i: nat)
    requires i < |run| - 1
  {
    Next(sys, run[i], run[i + 1])
  }

  ghost predicate IsRun(sys: System, run: seq<State>) {
    && run != [] && IsInitial(sys, run[0])
    && forall i: nat :: i < |run| - 1 ==> StepsAt(sys, run, i)
  }
}
