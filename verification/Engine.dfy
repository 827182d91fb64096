/** internal/collector/collector.go, type Engine: its methods, run one at a time, against the critical sections. */
module Engine {
  import opened Int64
  import opened Wrappers
  import opened Timing
  import opened Status
  import opened Parameters
  import opened ScenarioMapping
  import opened ArtifactNames
  import opened Collector
  import opened Finalization

  /** The counts of the final summary that come from the results. */
  datatype Summary = Summary(passed: nat, failed: nat, broken: nat, skipped: nat, retries: nat)

  const NO_SUMMARY := Summary(0, 0, 0, 0, 0)

  function WithStatus(results: map<string, TestResult>, keys: set<string>, status: Status): set<string>
    requires keys <= results.Keys
  {
    set u <- keys | results[u].status == status :: u
  }

  /** The parameters that mark an attempt as a retry. */
  function RetryMarks(results: map<string, TestResult>, keys: set<string>): set<(string, int)>
    requires keys <= results.Keys
  {
    set u, i | u in keys && 0 <= i < |results[u].parameters| && results[u].parameters[i].name == "retry" :: (u, i)
  }

  function Summarize(results: map<string, TestResult>, keys: set<string>): Summary
    requires keys <= results.Keys
  {
    Summary(|WithStatus(results, keys, Passed)|, |WithStatus(results, keys, Failed)|,
            |WithStatus(results, keys, Broken)|,
            |WithStatus(results, keys, Skipped)|, |RetryMarks(results, keys)|)
  }

  function Plus(a: Summary, b: Summary): Summary {
    Summary(a.passed + b.passed, a.failed + b.failed, a.broken + b.broken, a.skipped + b.skipped, a.retries + b.retries)
  }

  lemma PlusAssociates(a: Summary, b: Summary, c: Summary)
    ensures Plus(Plus(a, b), c) == Plus(a, Plus(b, c))
  {
  }

  lemma PlusNothing(s: Summary)
    ensures Plus(NO_SUMMARY, s) == s == Plus(s, NO_SUMMARY)
  {
  }

  function CountOf(status: Status): Summary {
    match status
    case Passed => Summary(1, 0, 0, 0, 0)
    case Failed => Summary(0, 1, 0, 0, 0)
    case Broken => Summary(0, 0, 1, 0, 0)
    case Skipped => Summary(0, 0, 0, 1, 0)
  }

  /** The retry marks of one result. */
  function MarksOf(u: string, parameters: seq<Parameter>, n: nat): set<(string, int)>
    requires n <= |parameters|
  {
    set i | 0 <= i < n && parameters[i].name == "retry" :: (u, i)
  }

  method CountRetryMarks(ghost u: string, parameters: seq<Parameter>) returns (count: nat)
    ensures count == |MarksOf(u, parameters, |parameters|)|
  {
    count := 0;
    for i := 0 to |parameters|
      invariant count == |MarksOf(u, parameters, i)|
    {
      var isMark := parameters[i].name == "retry";
      assert MarksOf(u, parameters, i + 1) == MarksOf(u, parameters, i) + if isMark then {(u, i as int)} else {};
      if isMark {
        count := count + 1;
      }
    }
  }

  lemma StatusOfOneMore(results: map<string, TestResult>, keys: set<string>, u: string, status: Status)
    requires u in keys && keys <= results.Keys
    ensures |WithStatus(results, keys, status)| ==
      |WithStatus(results, keys - {u}, status)| + (if results[u].status == status then 1 else 0)
  {
    var rest := WithStatus(results, keys - {u}, status);
    if results[u].status == status {
      assert WithStatus(results, keys, status) == rest + {u};
    } else {
      assert WithStatus(results, keys, status) == rest;
    }
  }

  lemma MarksOfOneMore(results: map<string, TestResult>, keys: set<string>, u: string)
    requires u in keys && keys <= results.Keys
    ensures |RetryMarks(results, keys)| ==
      |RetryMarks(results, keys - {u})| + |MarksOf(u, results[u].parameters, |results[u].parameters|)|
  {
    var rest, marks := RetryMarks(results, keys - {u}), MarksOf(u, results[u].parameters, |results[u].parameters|);
    assert RetryMarks(results, keys) == rest + marks && rest !! marks;
  }

  lemma SummaryOfOneMore(results: map<string, TestResult>, keys: set<string>, u: string)
    requires u in keys && keys <= results.Keys
    ensures var marks := |MarksOf(u, results[u].parameters, |results[u].parameters|)|;
            Summarize(results, keys) == Plus(Plus(CountOf(results[u].status), Summary(0, 0, 0, 0, marks)),
                                             Summarize(results, keys - {u}))
  {
    StatusOfOneMore(results, keys, u, Passed);
    StatusOfOneMore(results, keys, u, Failed);
    StatusOfOneMore(results, keys, u, Broken);
    StatusOfOneMore(results, keys, u, Skipped);
    MarksOfOneMore(results, keys, u);
  }

  /** The turn of the counting loop for one result. */
  lemma CountingTurn(results: map<string, TestResult>, keys: set<string>, u: string, counts: Summary, marks: nat,
                     total: Summary)
    requires u in keys && keys <= results.Keys && marks == |MarksOf(u, results[u].parameters, |results[u].parameters|)|
    requires Plus(counts, Summarize(results, keys)) == total
    ensures Plus(Plus(counts, Plus(CountOf(results[u].status), Summary(0, 0, 0, 0, marks))),
                 Summarize(results, keys - {u})) == total
  {
    SummaryOfOneMore(results, keys, u);
    PlusAssociates(counts, Plus(CountOf(results[u].status), Summary(0, 0, 0, 0, marks)),
                   Summarize(results, keys - {u}));
  }

  lemma NothingToCount(results: map<string, TestResult>)
    ensures Summarize(results, {}) == NO_SUMMARY
  {
  }

  /** The counting loop of finishSummary; the results come in any order. */
  method Count(results: map<string, TestResult>) returns (counts: Summary)
    ensures counts == Summarize(results, results.Keys)
    ensures counts.passed == |set u | u in results && results[u].status == Passed|
    ensures counts.failed == |set u | u in results && results[u].status == Failed|
    ensures counts.broken == |set u | u in results && results[u].status == Broken|
    ensures counts.skipped == |set u | u in results && results[u].status == Skipped|
    ensures counts.retries ==
      |set u, i | u in results && 0 <= i < |results[u].parameters|
                  && results[u].parameters[i].name == "retry" :: (u, i)|
  {
    counts := NO_SUMMARY;
    var left := results.Keys;
    ghost var total := Summarize(results, results.Keys);
    PlusNothing(total);
    while left != {}
      invariant left <= results.Keys && Plus(counts, Summarize(results, left)) == total
      decreases left
    {
      var u :| u in left;
      var marks := CountRetryMarks(u, results[u].parameters);
      CountingTurn(results, left, u, counts, marks, total);
      counts := Plus(counts, Plus(CountOf(results[u].status), Summary(0, 0, 0, 0, marks)));
      left := left - {u};
    }
    NothingToCount(results);
    PlusNothing(counts);
    SummaryExactly(results);
  }

  /** What the numbers count. */
  lemma SummaryExactly(results: map<string, TestResult>)
    ensures var s := Summarize(results, results.Keys);
            && s.passed == |set u | u in results && results[u].status == Passed|
            && s.failed == |set u | u in results && results[u].status == Failed|
            && s.broken == |set u | u in results && results[u].status == Broken|
            && s.skipped == |set u | u in results && results[u].status == Skipped|
            && s.retries == |set u, i | u in results && 0 <= i < |results[u].parameters|
                                        && results[u].parameters[i].name == "retry" :: (u, i)|
  {
    var passed := set u | u in results && results[u].status == Passed;
    var failed := set u | u in results && results[u].status == Failed;
    var broken := set u | u in results && results[u].status == Broken;
    var skipped := set u | u in results && results[u].status == Skipped;
    var marks := set u, i | u in results && 0 <= i < |results[u].parameters|
                            && results[u].parameters[i].name == "retry" :: (u, i);
    assert WithStatus(results, results.Keys, Passed) == passed && WithStatus(results, results.Keys, Failed) == failed;
    assert WithStatus(results, results.Keys, Broken) == broken && WithStatus(results, results.Keys, Skipped) == skipped;
    assert RetryMarks(results, results.Keys) == marks;
  }

  lemma PartsAddUp<T>(all: set<T>, a: set<T>, b: set<T>, c: set<T>, d: set<T>)
    requires a !! b !! c !! d && all == a + b + c + d
    ensures |a| + |b| + |c| + |d| == |all|
  {
  }

  /** Every result is counted once, under its status. */
  lemma SummaryAddsUp(results: map<string, TestResult>)
    ensures var s := Summarize(results, results.Keys); s.passed + s.failed + s.broken + s.skipped == |results.Keys|
  {
    PartsAddUp(results.Keys, WithStatus(results, results.Keys, Passed), WithStatus(results, results.Keys, Failed),
               WithStatus(results, results.Keys, Broken), WithStatus(results, results.Keys, Skipped));
  }

  /** copyLive and copyStrings. */
  method Copy<V>(source: map<string, V>) returns (result: map<string, V>)
    ensures result == source
  {
    result := map[];
    var keys := source.Keys;
    while keys != {}
      invariant keys <= source.Keys
      invariant result.Keys == source.Keys - keys
      invariant forall k <- result :: result[k] == source[k]
      decreases |keys|
    {
      var key :| key in keys;
      result := result[key := source[key]];
      keys := keys - {key};
    }
  }

  /** What mapping the suite yields for the copied lifecycle data and UUIDs; None for an error. */
  type SuiteMapper = (map<string, LiveInfo>, map<string, string>) -> Option<seq<Final>>

  /** The artifacts whose file cannot be written, among the first `n`. */
  function Unwritable(storable: nat -> bool, n: nat): set<nat> {
    set i: nat | i < n && !storable(i) :: i
  }

  lemma OneMoreUnwritable(storable: nat -> bool, n: nat)
    ensures Unwritable(storable, n + 1) == Unwritable(storable, n) + if storable(n) then {} else {n}
  {
  }

  /** The mapping ScenarioEnding goes on with: a registered UUID forces a second one. */
  function MappedAs(shared: Shared, request: Request, first: Option<TestResult>,
                    again: string -> Option<TestResult>): Option<TestResult> {
    if first.None? || !Conflicts(shared, request.key, first.value.uuid) then first
    else again(shared.uuids[request.key])
  }

  /** A scenario end with its mapping: registered, and published unless its file had to be written and could not. */
  function EndedShared(shared: Shared, streaming: bool, request: Request, mapped: TestResult, now: int64,
                       storable: bool): Shared {
    var reserved := Reserve(shared, request, mapped, now);
    if streaming && !storable then reserved
      else Publish(reserved, Restarted(shared.starts, request.startKey, mapped, now))
  }

  function EndedFiles(files: map<string, TestResult>, starts: map<string, int64>, streaming: bool, request: Request,
                      mapped: TestResult, now: int64, storable: bool): map<string, TestResult> {
    var result := Restarted(starts, request.startKey, mapped, now);
    if streaming && storable then files[ResultName(result.uuid) := result] else files
  }

  class Engine {
    const streaming: bool
    var uuids: map<string, string>
    var live: map<string, LiveInfo>
    var results: map<string, TestResult>
    var startEvents: map<string, int64>
    var finalized: bool
    var summary: Summary
    /** The result files the writer has published. */
    var files: map<string, TestResult>

    function View(): Shared
      reads this
    {
      Shared(uuids, live, results, startEvents, finalized)
    }

    constructor (streaming: bool)
      ensures this.streaming == streaming
      ensures View() == Shared(map[], map[], map[], map[], false) && files == map[] && summary == NO_SUMMARY
    {
      this.streaming := streaming;
      uuids, live, results, startEvents, finalized := map[], map[], map[], map[], false;
      files, summary := map[], NO_SUMMARY;
    }

    /** ScenarioStarting, StepStarting and the like. */
    method RecordStart(key: string, now: int64)
      modifies `startEvents
      ensures startEvents == old(startEvents)[key := now]
    {
      startEvents := startEvents[key := now];
    }

    method RecordEnd(key: string)
      modifies `startEvents
      ensures startEvents == old(startEvents) - {key}
    {
      startEvents := startEvents - {key};
    }

    /** The registering critical section of ScenarioEnding. */
    method Register(request: Request, mapped: TestResult, now: int64) returns (result: TestResult)
      modifies `uuids, `live, `startEvents
      ensures View() == Reserve(old(View()), request, mapped, now)
      ensures result == Restarted(old(startEvents), request.startKey, mapped, now)
      ensures IsCorrected(old(startEvents), request.startKey, mapped, now, result)
      ensures uuids == old(uuids)[request.key := mapped.uuid] && startEvents == old(startEvents) - {request.startKey}
      ensures live == old(live)[request.key := LiveInfo(Range(result.start, result.stop), request.stream,
                                                        request.runner, request.retry)]
    {
      result := mapped;
      if request.startKey in startEvents {
        var start := startEvents[request.startKey];
        result := result.(start := start);
        if result.stop < result.start {
          result := result.(stop := now);
        }
        startEvents := startEvents - {request.startKey};
      }
      uuids := uuids[request.key := result.uuid];
      live := live[request.key := LiveInfo(Range(result.start, result.stop), request.stream, request.runner,
                                           request.retry)];
      assert startEvents == old(startEvents) - {request.startKey};
    }

    /**
     * ScenarioEnding with nothing beside it. `first` is the mapping under a new UUID, `again` the one under a given
     * UUID, None for an error; `storable` tells whether the file can be written.
     */
    method ScenarioEnding(request: Request, first: Option<TestResult>, again: string -> Option<TestResult>, now: int64,
                          storable: bool)
      modifies `uuids, `live, `results, `startEvents, `files
      ensures var mapped := MappedAs(old(View()), request, first, again);
              if mapped.None? then View() == old(View()) && files == old(files)
              else
                && View() == EndedShared(old(View()), streaming, request, mapped.value, now, storable)
                && files == EndedFiles(old(files), old(startEvents), streaming, request, mapped.value, now, storable)
      ensures var mapped := MappedAs(old(View()), request, first, again);
              mapped.Some? ==>
                && request.key in live && uuids == old(uuids)[request.key := mapped.value.uuid]
                && startEvents == old(startEvents) - {request.startKey} && finalized == old(finalized)
                && exists result :: IsCorrected(old(startEvents), request.startKey, mapped.value, now, result)
                     && live == old(live)[request.key := LiveInfo(Range(result.start, result.stop), request.stream,
                                                                  request.runner, request.retry)]
                     && results == (if streaming && !storable then old(results)
                                    else old(results)[result.uuid := result])
                     && files == (if streaming && storable then old(files)[ResultName(result.uuid) := result]
                                  else old(files))
    {
      if first.None? {
        return;
      }
      var mapped := first;
      if Conflicts(View(), request.key, first.value.uuid) {
        mapped := again(uuids[request.key]);
        if mapped.None? {
          return;
        }
      }
      var result := Register(request, mapped.value, now);
      if streaming {
        if !storable {
          return;
        }
        files := files[ResultName(result.uuid) := result];
      }
      results := results[result.uuid := result];
    }

    /** The loop of Finalize over the final artifacts. */
    method WriteArtifacts(output: seq<Final>, storable: nat -> bool) returns (complete: bool)
      modifies `uuids, `results, `files
      ensures View() == Applied(old(View()), output, Unwritable(storable, |output|), |output|)
      ensures files == Stored(old(files), output, Unwritable(storable, |output|), |output|)
      ensures complete <==> Unwritable(storable, |output|) == {}
    {
      ghost var unwritten := Unwritable(storable, |output|);
      complete := true;
      for i := 0 to |output|
        invariant View() == Applied(old(View()), output, unwritten, i)
        invariant files == Stored(old(files), output, unwritten, i)
        invariant complete <==> Unwritable(storable, i) == {}
      {
        OneMoreUnwritable(storable, i);
        AppliedOneMore(old(View()), old(files), output, unwritten, i);
        if !storable(i) {
          complete := false;
        } else {
          var artifact := output[i].artifact;
          files := files[ResultName(artifact.result.uuid) := artifact.result];
          uuids := uuids[artifact.key := artifact.result.uuid];
          results := results[artifact.result.uuid := artifact.result];
          assert View() == Record(Applied(old(View()), output, unwritten, i), artifact);
        }
      }
    }

    /**
     * Finalize with nothing beside it: the flag is tested and set, the suite is mapped on copies, and each artifact
     * whose file can be written is recorded. Strict mode stops before the summary when a result file, or one of
     * the rest (containers and metadata), could not be written.
     */
    method Finalize(mapper: SuiteMapper, storable: nat -> bool, restStored: bool, strict: bool) returns (ok: bool)
      modifies `uuids, `results, `finalized, `files, `summary
      ensures finalized
      ensures old(finalized) ==> ok && View() == old(View()) && files == old(files) && summary == old(summary)
      ensures !old(finalized) ==>
        match mapper(old(live), old(uuids))
        case None => ok == !strict && View() == old(View()).(finalized := true) && files == old(files) &&
          summary == old(summary)
        case Some(output) =>
          var unwritten := Unwritable(storable, |output|);
          && View() == Applied(old(View()).(finalized := true), output, unwritten, |output|)
          && files == Stored(old(files), output, unwritten, |output|)
          && ok == ((unwritten == {} && restStored) || !strict)
          && summary == if ok then Summarize(results, results.Keys) else old(summary)
    {
      if finalized {
        return true;
      }
      finalized := true;
      var liveCopy := Copy(live);
      var existing := Copy(uuids);
      var mapped := mapper(liveCopy, existing);
      if mapped.None? {
        return !strict;
      }
      var complete := WriteArtifacts(mapped.value, storable);
      if !(complete && restStored) && strict {
        return false;
      }
      FinishSummary();
      return true;
    }

    /** With results at hand an interruption only closes the run; otherwise it is a finalisation without a suite. */
    method FinalizeInterrupted(mapper: SuiteMapper, storable: nat -> bool, restStored: bool, strict: bool)
      returns (ok: bool)
      modifies `uuids, `results, `finalized, `files, `summary
      ensures finalized
      ensures old(finalized) ==> ok && View() == old(View()) && files == old(files) && summary == old(summary)
      ensures !old(finalized) && old(results) != map[] ==>
        && ok && View() == old(View()).(finalized := true) && files == old(files) &&
           summary == Summarize(results, results.Keys)
      ensures !old(finalized) && old(results) == map[] ==>
        match mapper(old(live), old(uuids))
        case None => ok == !strict && View() == old(View()).(finalized := true) && files == old(files) &&
          summary == old(summary)
        case Some(output) =>
          var unwritten := Unwritable(storable, |output|);
          && View() == Applied(old(View()).(finalized := true), output, unwritten, |output|)
          && files == Stored(old(files), output, unwritten, |output|)
          && ok == ((unwritten == {} && restStored) || !strict)
          && summary == if ok then Summarize(results, results.Keys) else old(summary)
    {
      if finalized {
        return true;
      }
      if |results| > 0 {
        finalized := true;
        FinishSummary();
        return true;
      }
      ok := Finalize(mapper, storable, restStored, strict);
    }

    method FinishSummary()
      modifies `summary
      ensures summary == Summarize(results, results.Keys)
    {
      summary := Count(results);
    }
  }
}
