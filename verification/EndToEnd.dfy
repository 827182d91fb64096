/** Whole sessions: one event or none, MapSuite on the state it left, and Finalize on what MapSuite delivers. */
module EndToEnd {
  import opened Int64
  import opened Wrappers
  import opened Timing
  import opened Identity
  import opened ScenarioMapping
  import opened Suite
  import opened SyntheticKeys
  import opened Collector
  import opened Reconciliation
  import F = Finalization
  import L = LateEvents
  import M = SuiteMapping
  import R = EngineRefinement
  import E = Engine

  // ---------------------------------------------------------------- every executed scenario is planned

  /** The suite reports this scenario in this specification. */
  predicate IsReported(suite: SuiteResult, spec: Spec, item: SpecItem, scenario: Scenario) {
    && (exists result <- suite.specs :: result.Some? && result.value.spec == Some(spec))
    && Some(item) in spec.items && Executed(Some(item)) == Some(scenario)
  }

  predicate IsPlannedFor(spec: Spec, item: SpecItem, scenario: Scenario, p: Planned) {
    p.Attempt? && p.file == spec.file && p.item == item && p.scenario == scenario
  }

  lemma {:induction false} SeedsCover(seeder: Seeder, items: seq<Option<SpecItem>>, item: SpecItem, scenario: Scenario)
    requires Some(item) in items && Executed(Some(item)) == Some(scenario)
    ensures seeder(item, scenario) in Seeds(seeder, items)
  {
    if items[0] != Some(item) {
      assert items == [items[0]] + items[1..];
      SeedsCover(seeder, items[1..], item, scenario);
    }
  }

  lemma {:induction false} TimedCovers(spec: Spec, seeds: seq<Seed>, cursor: int64, specRange: Range,
                                       live: map<string, LiveInfo>, seed: Seed)
    requires seed in seeds
    ensures exists p <- Timed(spec, seeds, cursor, specRange, live) :: IsPlannedFor(spec, seed.item, seed.scenario, p)
  {
    var info := LiveOf(seeds[0], cursor, specRange, live);
    var plan := Timed(spec, seeds, cursor, specRange, live);
    var rest := Timed(spec, seeds[1..], Max(cursor, info.range.stop), specRange, live);
    assert plan == [plan[0]] + rest;
    if seeds[0] == seed {
      assert plan[0] in plan && IsPlannedFor(spec, seed.item, seed.scenario, plan[0]);
    } else {
      assert seeds == [seeds[0]] + seeds[1..];
      TimedCovers(spec, seeds[1..], Max(cursor, info.range.stop), specRange, live, seed);
      var p :| p in rest && IsPlannedFor(spec, seed.item, seed.scenario, p);
      assert p in plan;
    }
  }

  lemma ContentCovers(ctx: Context, spec: Spec, errors: seq<Option<GaugeError>>, at: int64, specRange: Range,
                      live: map<string, LiveInfo>, item: SpecItem, scenario: Scenario)
    requires Some(item) in spec.items && Executed(Some(item)) == Some(scenario)
    ensures exists p <- PlanContent(ctx, spec, errors, at, specRange, live) :: IsPlannedFor(spec, item, scenario, p)
  {
    var seeder := SeederOf(ctx, spec);
    var seeds := Seeds(seeder, spec.items);
    SeedsCover(seeder, spec.items, item, scenario);
    TimedCovers(spec, seeds, specRange.start, specRange, live, seeder(item, scenario));
    var p :| p in Timed(spec, seeds, specRange.start, specRange, live) && IsPlannedFor(spec, item, scenario, p);
    assert p in PlanContent(ctx, spec, errors, at, specRange, live);
  }

  lemma {:induction false} SpecsCover(ctx: Context, specs: seq<Option<SpecResult>>, index: nat, suiteRange: Range,
                                      live: map<string, LiveInfo>, result: Option<SpecResult>, spec: Spec,
                                      item: SpecItem, scenario: Scenario)
    requires result in specs && result.Some? && result.value.spec == Some(spec)
    requires Some(item) in spec.items && Executed(Some(item)) == Some(scenario)
    ensures exists p <- PlanSpecs(SpecPlannerOf(ctx, suiteRange, live), specs, index) ::
              IsPlannedFor(spec, item, scenario, p)
  {
    var planner := SpecPlannerOf(ctx, suiteRange, live);
    var first, rest := planner(specs[0], index), PlanSpecs(planner, specs[1..], index + 1);
    assert PlanSpecs(planner, specs, index) == first + rest;
    if specs[0] == result {
      var SpecResult(_, errors, timestamp, duration) := result.value;
      ContentCovers(ctx, spec, errors, if timestamp.Some? then MillisOf(timestamp.value) else suiteRange.start,
                    Resolve(timestamp, duration, At(suiteRange.start)), live, item, scenario);
      var p :| p in first && IsPlannedFor(spec, item, scenario, p);
      assert p in first + rest;
    } else {
      assert specs == [specs[0]] + specs[1..];
      SpecsCover(ctx, specs[1..], index + 1, suiteRange, live, result, spec, item, scenario);
      var p :| p in rest && IsPlannedFor(spec, item, scenario, p);
      assert p in first + rest;
    }
  }

  /** Every executed scenario of the suite has an entry in its plan. */
  lemma ReportedIsPlanned(ctx: Context, suite: SuiteResult, now: Instant, live: map<string, LiveInfo>, spec: Spec,
                          item: SpecItem, scenario: Scenario)
    returns (p: Planned)
    requires IsReported(suite, spec, item, scenario)
    ensures p in PlanSpecs(SpecPlannerOf(ctx, SuiteRange(suite, now), live), suite.specs, 0)
    ensures IsPlannedFor(spec, item, scenario, p)
  {
    var range := SuiteRange(suite, now);
    var result :| result in suite.specs && result.Some? && result.value.spec == Some(spec);
    SpecsCover(ctx, suite.specs, 0, range, live, result, spec, item, scenario);
    p :| p in PlanSpecs(SpecPlannerOf(ctx, range, live), suite.specs, 0) && IsPlannedFor(spec, item, scenario, p);
  }

  // ---------------------------------------------------------------- one event, then the suite

  /** A mapping of all entries is one of the entries that are left. */
  lemma WholeOrNot(outcome: M.Outcome, existing: map<string, string>, drawn: set<string>, whole: bool,
                   plan: seq<Planned>, emitted: seq<Artifact>, output: SuiteOutput)
    requires M.Reconciled(outcome, existing, drawn, whole, plan, emitted, output)
    ensures M.Reconciled(outcome, existing, drawn, false, plan, emitted, output)
  {
  }

  /** Finalize took over after one event, nothing ran beside it, and it could write all it mapped. */
  ghost predicate IsSession(ctx: Context, request: Request, mapped: TestResult, suite: SuiteResult, now: Instant,
                            drawn: set<string>, plan: seq<Planned>, emitted: seq<Artifact>, output: SuiteOutput,
                            run: seq<State>) {
    && run != [] && F.Undisturbed(L.EventAndFinalize(request), run[|run| - 1]) && run[|run| - 1].unwritten == {}
    && IsOver(L.EventAndFinalize(request), run, |run| - 1, ctx, suite, now, drawn, plan, emitted, output)
    && run[|run| - 1].snapshot.value.shared == AfterEvent(request, mapped)
  }

  /** On what MapSuite delivers, in the terms it delivers it. */
  lemma DeliveredSession(ctx: Context, request: Request, mapped: TestResult, suite: SuiteResult, now: Instant,
                         before: Shared, supply: M.Supply, draws: nat, whole: bool, plan: seq<Planned>,
                         emitted: seq<Artifact>, output: SuiteOutput)
    returns (run: seq<State>)
    requires mapped.uuid != "" && M.Fresh(supply, {mapped.uuid}) && before == AfterEvent(request, mapped)
    requires M.IsDelivered(ctx, suite, now, before.live, before.uuids, plan)
    requires M.Reconciled(M.OutcomeIn(ctx), before.uuids, M.Drawn(supply, draws), whole, plan, emitted, output)
    ensures IsSession(ctx, request, mapped, suite, now, M.Drawn(supply, draws), plan, emitted, output, run)
  {
    WholeOrNot(M.OutcomeIn(ctx), before.uuids, M.Drawn(supply, draws), whole, plan, emitted, output);
    run := EventThenFinalize(ctx, request, mapped, suite, now, supply, draws, plan, emitted, output,
                             Finals(plan, emitted, output.results));
  }

  /** The session of one streamed event and a final suite, whatever MapSuite makes of it. */
  method StreamThenFinalize(ctx: Context, request: Request, mapped: TestResult, suite: SuiteResult, now: Instant,
                            supply: M.Supply)
    returns (output: SuiteOutput, draws: nat, ok: bool, ghost plan: seq<Planned>, ghost emitted: seq<Artifact>,
             ghost run: seq<State>)
    requires mapped.uuid != "" && M.Fresh(supply, {mapped.uuid})
    ensures M.Reliable(supply) && !ctx.strict ==> ok
    ensures ok ==> IsSession(ctx, request, mapped, suite, now, M.Drawn(supply, draws), plan, emitted, output, run)
  {
    var before := AfterEvent(request, mapped);
    output, draws, ok, emitted, plan := M.MapSuite(ctx, Some(suite), now, before.live, before.uuids, supply,
                                                   {mapped.uuid});
    run := [];
    if ok {
      run := DeliveredSession(ctx, request, mapped, suite, now, before, supply, draws, M.Whole(ctx, supply), plan,
                              emitted, output);
    }
  }

  lemma HasAttemptKey(ctx: Context, key: string, file: string, item: SpecItem, scenario: Scenario, retry: int32)
    requires key == KeyOf(ctx, file, item, scenario, retry)
    ensures IsAttemptKey(ctx, key)
  {
  }

  lemma OnlyOneKey(sys: System, request: Request)
    requires sys == L.EventAndFinalize(request)
    ensures forall i :: 0 <= i < |sys.calls| && sys.calls[i].ScenarioCall? ==> sys.calls[i].request == request
  {
  }

  lemma OnlyThisAttempt(ctx: Context, sys: System, request: Request)
    requires sys == L.EventAndFinalize(request) && IsAttemptKey(ctx, request.key)
    ensures OnlyAttempts(ctx, sys)
  {
    OnlyOneKey(sys, request);
  }

  lemma ReportIsEntry(ctx: Context, suite: SuiteResult, now: Instant, before: Shared, key: string, file: string,
                      item: SpecItem, scenario: Scenario, retry: int32, spec: Spec, item': SpecItem,
                      scenario': Scenario)
    returns (p: Planned)
    requires key == KeyOf(ctx, file, item, scenario, retry) && key in before.uuids
    requires IsReported(suite, spec, item', scenario') && SameScenario(item, scenario, item', scenario')
    requires PathOf(ctx, file, item') == PathOf(ctx, spec.file, item')
    requires 0 <= retry && scenario'.retriesCount == retry + 1
    ensures IsEntryOf(ctx, suite, now, before, p, key, file, item, scenario, retry)
  {
    p := ReportedIsPlanned(ctx, suite, now, before.live, spec, item', scenario');
  }

  lemma AllAreStored(s: State, plan: seq<Planned>, emitted: seq<Artifact>, results: seq<Artifact>, i: nat)
    requires s.unwritten == {} && s.output == Finals(plan, emitted, results)
    requires |plan| == |emitted| && multiset(results) == multiset(emitted) && i < |plan|
    requires emitted[i].key == plan[i].key
    ensures IsStored(s, plan[i].key)
  {
    assert emitted[i] in multiset(results);
    var k: nat :| k < |results| && results[k] == emitted[i];
    assert F.KeysOf(s.output)[k] == plan[i].key;
  }

  lemma EntryKey(ctx: Context, suite: SuiteResult, now: Instant, before: Shared, p: Planned, key: string, file: string,
                 item: SpecItem, scenario: Scenario, retry: int32)
    requires IsEntryOf(ctx, suite, now, before, p, key, file, item, scenario, retry)
    ensures p.key == key
  {
    EventMeetsEntry(ctx, suite, now, before.live, p, file, item, scenario, retry);
  }

  /** UUID, times, stream and runner are those of the streamed event. */
  predicate IsAsStreamed(request: Request, mapped: TestResult, result: TestResult) {
    && result.uuid == mapped.uuid && result.start == mapped.start && result.stop == mapped.stop
    && result.stream == request.stream && result.runner == request.runner
  }

  lemma LiveAfterEvent(before: Shared, request: Request, mapped: TestResult, result: TestResult)
    requires before == AfterEvent(request, mapped) && IsLive(before, request.key, result)
    ensures IsAsStreamed(request, mapped, result)
  {
  }

  /** What a session with this attempt comes to. */
  ghost predicate EndsAsFinal(ctx: Context, request: Request, mapped: TestResult, suite: SuiteResult, now: Instant,
                              drawn: set<string>, plan: seq<Planned>, emitted: seq<Artifact>, output: SuiteOutput,
                              run: seq<State>, j: nat) {
    && run != []
    && IsFinal(L.EventAndFinalize(request), run, |run| - 1, ctx, suite, now, drawn, plan, emitted, output)
    && j < |plan| == |emitted| && plan[j].key == request.key && IsAsStreamed(request, mapped, emitted[j].result)
    && IsTheResult(run[|run| - 1], request.key, emitted[j].result)
  }

  lemma SessionEndsAsFinal(ctx: Context, request: Request, mapped: TestResult, suite: SuiteResult, now: Instant,
                           drawn: set<string>, plan: seq<Planned>, emitted: seq<Artifact>, output: SuiteOutput,
                           run: seq<State>, p: Planned, file: string, item: SpecItem, scenario: Scenario, retry: int32)
    returns (j: nat)
    requires IsSession(ctx, request, mapped, suite, now, drawn, plan, emitted, output, run)
    requires IsDistinctFromErrors(ctx) && OnlyAttempts(ctx, L.EventAndFinalize(request))
    requires IsEntryOf(ctx, suite, now, AfterEvent(request, mapped), p, request.key, file, item, scenario, retry)
    ensures EndsAsFinal(ctx, request, mapped, suite, now, drawn, plan, emitted, output, run, j)
  {
    var sys, n := L.EventAndFinalize(request), |run| - 1;
    var i;
    i, j := LiveAttemptBecomesFinal(sys, run, n, n, ctx, suite, now, drawn, plan, emitted, output, p, request.key, file,
                                    item, scenario, retry);
    FinalKeysAreUsable(sys, run, n, ctx, suite, now, drawn, plan, emitted, output);
    EntryKey(ctx, suite, now, run[n].snapshot.value.shared, p, request.key, file, item, scenario, retry);
    AllAreStored(run[n], plan, emitted, output.results, i);
    LiveAfterEvent(run[n].snapshot.value.shared, request, mapped, emitted[j].result);
  }

  /**
   * In every session of one streamed attempt and a suite that reports it, the results above apply, and the attempt ends
   * as one result under the UUID that was streamed.
   */
  method StreamedAttemptBecomesFinal(ctx: Context, request: Request, mapped: TestResult, suite: SuiteResult,
                                     now: Instant, supply: M.Supply, file: string, item: SpecItem, scenario: Scenario,
                                     retry: int32, spec: Spec, item': SpecItem, scenario': Scenario)
    returns (output: SuiteOutput, draws: nat, ok: bool, ghost plan: seq<Planned>, ghost emitted: seq<Artifact>,
             ghost run: seq<State>, ghost p: Planned, ghost j: nat)
    requires mapped.uuid != "" && M.Fresh(supply, {mapped.uuid}) && IsDistinctFromErrors(ctx)
    requires request.key == KeyOf(ctx, file, item, scenario, retry)
    requires IsReported(suite, spec, item', scenario') && SameScenario(item, scenario, item', scenario')
    requires PathOf(ctx, file, item') == PathOf(ctx, spec.file, item')
    requires 0 <= retry && scenario'.retriesCount == retry + 1
    ensures M.Reliable(supply) && !ctx.strict ==> ok
    ensures ok ==>
      && IsEntryOf(ctx, suite, now, AfterEvent(request, mapped), p, request.key, file, item, scenario, retry)
      && EndsAsFinal(ctx, request, mapped, suite, now, M.Drawn(supply, draws), plan, emitted, output, run, j)
  {
    output, draws, ok, plan, emitted, run := StreamThenFinalize(ctx, request, mapped, suite, now, supply);
    p, j := *, 0;
    if ok {
      ghost var before := AfterEvent(request, mapped);
      HasAttemptKey(ctx, request.key, file, item, scenario, retry);
      OnlyThisAttempt(ctx, L.EventAndFinalize(request), request);
      assert before.uuids == map[request.key := mapped.uuid];
      p := ReportIsEntry(ctx, suite, now, before, request.key, file, item, scenario, retry, spec, item', scenario');
      j := SessionEndsAsFinal(ctx, request, mapped, suite, now, M.Drawn(supply, draws), plan, emitted, output, run, p,
                              file, item, scenario, retry);
    }
  }

  // ---------------------------------------------------------------- no event, and a suite that names a key twice

  predicate IsEmpty(shared: Shared) {
    shared == Shared(map[], map[], map[], map[], false)
  }

  lemma FinalizeAlone(before: Shared, finals: seq<Final>) returns (run: seq<State>)
    requires IsEmpty(before) && FitsSnapshot(before.uuids, {}, finals)
    ensures IsRun(L.OnlyFinalize(), run)
    ensures var s := run[|run| - 1];
            && F.Undisturbed(L.OnlyFinalize(), s) && F.NobodyFinalizes(s) && s.snapshot.value.shared == before
            && s.output == finals && s.unwritten == {}
  {
    var storable := (i: nat) => true;
    run := R.FinalizeIsARun(L.OnlyFinalize(), State(before, map[], [Idle], {}, None, [], {}, 0, false), 0, finals,
                            storable);
    assert E.Unwritable(storable, |finals|) == {};
  }

  lemma RepeatsOfPlan(ctx: Context, existing: map<string, string>, drawn: set<string>, plan: seq<Planned>,
                      emitted: seq<Artifact>, output: SuiteOutput, finals: seq<Final>)
    requires finals == Finals(plan, emitted, output.results) && "" !in existing.Values
    requires M.Reconciled(M.OutcomeIn(ctx), existing, drawn, false, plan, emitted, output)
    ensures F.RepeatsAreRegistered(existing, finals, {}, |finals|) <==> PlanRepeatsRegistered(existing, plan)
  {
    Delivery(ctx, existing, drawn, plan, emitted, output);
    RepeatsComeFromThePlan(M.OutcomeIn(ctx), existing, drawn, plan, emitted, output.results);
  }

  lemma OwnersOnEmpty(sys: System, run: seq<State>, existing: map<string, string>, finals: seq<Final>)
    requires IsRun(sys, run) && existing == map[]
    requires var s := run[|run| - 1];
             && F.Undisturbed(sys, s) && F.NobodyFinalizes(s) && s.snapshot.value.shared.uuids == existing
             && s.output == finals && s.unwritten == {}
    ensures F.KeysOwnResults(run[|run| - 1]) <==> F.RepeatsAreRegistered(existing, finals, {}, |finals|)
  {
    F.KeysOwnResultsExactly(sys, run, |run| - 1);
  }

  lemma SuiteAlone(ctx: Context, suite: SuiteResult, now: Instant, before: Shared, supply: M.Supply, draws: nat,
                   plan: seq<Planned>, emitted: seq<Artifact>, output: SuiteOutput, finals: seq<Final>)
    returns (run: seq<State>)
    requires IsEmpty(before) && M.Fresh(supply, {})
    requires MappedOn(ctx, suite, now, before, M.Drawn(supply, draws), plan, emitted, output, finals)
    ensures run != []
    ensures IsOver(L.OnlyFinalize(), run, |run| - 1, ctx, suite, now, M.Drawn(supply, draws), plan, emitted, output)
    ensures F.KeysOwnResults(run[|run| - 1]) <==> PlanRepeatsRegistered(before.uuids, plan)
  {
    MappedSuiteFits(ctx, suite, now, before, supply, {}, draws, plan, emitted, output, finals);
    run := FinalizeAlone(before, finals);
    OwnersOnEmpty(L.OnlyFinalize(), run, before.uuids, finals);
    RepeatsOfPlan(ctx, before.uuids, M.Drawn(supply, draws), plan, emitted, output, finals);
  }

  predicate KeysDiffer(plan: seq<Planned>) {
    forall i, j :: 0 <= i < j < |plan| ==> plan[i].key != plan[j].key
  }

  lemma NothingRegistered(existing: map<string, string>, plan: seq<Planned>)
    requires existing == map[]
    ensures PlanRepeatsRegistered(existing, plan) <==> KeysDiffer(plan)
  {
  }

  /** Finalize alone is a run on this mapping, and every result has a key exactly if the suite names no key twice. */
  ghost predicate EndsAlone(ctx: Context, suite: SuiteResult, now: Instant, drawn: set<string>, plan: seq<Planned>,
                            emitted: seq<Artifact>, output: SuiteOutput, run: seq<State>) {
    && run != []
    && IsOver(L.OnlyFinalize(), run, |run| - 1, ctx, suite, now, drawn, plan, emitted, output)
    && (F.KeysOwnResults(run[|run| - 1]) <==> KeysDiffer(plan))
  }

  /** On what MapSuite delivers, in the terms it delivers it. */
  lemma DeliveredAlone(ctx: Context, suite: SuiteResult, now: Instant, before: Shared, supply: M.Supply, draws: nat,
                       whole: bool, plan: seq<Planned>, emitted: seq<Artifact>, output: SuiteOutput)
    returns (run: seq<State>)
    requires IsEmpty(before) && M.Fresh(supply, {})
    requires M.IsDelivered(ctx, suite, now, before.live, before.uuids, plan)
    requires M.Reconciled(M.OutcomeIn(ctx), before.uuids, M.Drawn(supply, draws), whole, plan, emitted, output)
    ensures EndsAlone(ctx, suite, now, M.Drawn(supply, draws), plan, emitted, output, run)
  {
    WholeOrNot(M.OutcomeIn(ctx), before.uuids, M.Drawn(supply, draws), whole, plan, emitted, output);
    run := SuiteAlone(ctx, suite, now, before, supply, draws, plan, emitted, output,
                      Finals(plan, emitted, output.results));
    NothingRegistered(before.uuids, plan);
  }

  /** The session of a final suite alone: every result has a key exactly if the suite names no key twice. */
  method FinalizeOnly(ctx: Context, suite: SuiteResult, now: Instant, before: Shared, supply: M.Supply)
    returns (output: SuiteOutput, draws: nat, ok: bool, ghost plan: seq<Planned>, ghost emitted: seq<Artifact>,
             ghost run: seq<State>)
    requires IsEmpty(before) && M.Fresh(supply, {})
    ensures M.Reliable(supply) && !ctx.strict ==> ok
    ensures ok && M.Whole(ctx, supply) ==> plan == Plan(ctx, suite, now, before.live)
    ensures ok ==> EndsAlone(ctx, suite, now, M.Drawn(supply, draws), plan, emitted, output, run)
  {
    output, draws, ok, emitted, plan := M.MapSuite(ctx, Some(suite), now, before.live, before.uuids, supply, {});
    run := [];
    if ok {
      run := DeliveredAlone(ctx, suite, now, before, supply, draws, M.Whole(ctx, supply), plan, emitted, output);
    }
  }

  lemma TwiceTimed(spec: Spec, seeds: seq<Seed>, cursor: int64, specRange: Range, live: map<string, LiveInfo>)
    requires |seeds| == 2 && seeds[0] == seeds[1]
    ensures var plan := Timed(spec, seeds, cursor, specRange, live); |plan| == 2 && plan[0].key == plan[1].key
  {
    var next := Max(cursor, LiveOf(seeds[0], cursor, specRange, live).range.stop);
    var last := Max(next, LiveOf(seeds[1], next, specRange, live).range.stop);
    assert seeds[1..] == [seeds[1]] && Timed(spec, seeds[1..][1..], last, specRange, live) == [];
    assert |Timed(spec, seeds[1..], next, specRange, live)| == 1;
  }

  lemma TwiceSeeded(seeder: Seeder, items: seq<Option<SpecItem>>, item: SpecItem)
    requires items == [Some(item), Some(item)] && Executed(Some(item)).Some?
    ensures var seeds := Seeds(seeder, items); |seeds| == 2 && seeds[0] == seeds[1]
  {
    assert items[1..] == [Some(item)] && items[1..][1..] == [];
    assert Seeds(seeder, items[1..]) == [seeder(item, Executed(Some(item)).value)];
  }

  lemma TwiceInContent(ctx: Context, spec: Spec, item: SpecItem, at: int64, specRange: Range,
                       live: map<string, LiveInfo>)
    requires spec.items == [Some(item), Some(item)] && Executed(Some(item)).Some?
    ensures var plan := PlanContent(ctx, spec, [], at, specRange, live); |plan| == 2 && plan[0].key == plan[1].key
  {
    TwiceSeeded(SeederOf(ctx, spec), spec.items, item);
    TwiceTimed(spec, Seeds(SeederOf(ctx, spec), spec.items), specRange.start, specRange, live);
  }

  lemma OneSpec(planner: SpecPlanner, specs: seq<Option<SpecResult>>)
    requires |specs| == 1
    ensures PlanSpecs(planner, specs, 0) == planner(specs[0], 0)
  {
    assert specs[1..] == [];
  }

  /** A specification that holds one executed item twice plans one key twice. */
  lemma TwicePlanned(ctx: Context, suite: SuiteResult, now: Instant, live: map<string, LiveInfo>, spec: Spec,
                     item: SpecItem)
    requires suite.specs == [Some(SpecResult(Some(spec), [], None, 0))] && spec.items == [Some(item), Some(item)]
    requires Executed(Some(item)).Some?
    ensures var plan := Plan(ctx, suite, now, live); |plan| == 2 && plan[0].key == plan[1].key
  {
    var range := SuiteRange(suite, now);
    TwiceInContent(ctx, spec, item, range.start, Resolve(None, 0, At(range.start)), live);
    OneSpec(SpecPlannerOf(ctx, range, live), suite.specs);
  }

  /** For instance: such a suite, without any event before it, leaves a result that no key leads to. */
  method RepeatedItemOrphansResult(ctx: Context, suite: SuiteResult, now: Instant, before: Shared, supply: M.Supply,
                                   spec: Spec, item: SpecItem)
    returns (output: SuiteOutput, draws: nat, ghost plan: seq<Planned>, ghost emitted: seq<Artifact>,
             ghost run: seq<State>)
    requires IsEmpty(before) && M.Fresh(supply, {}) && M.Reliable(supply) && !ctx.strict
    requires suite.specs == [Some(SpecResult(Some(spec), [], None, 0))] && spec.items == [Some(item), Some(item)]
    requires Executed(Some(item)).Some?
    ensures EndsAlone(ctx, suite, now, M.Drawn(supply, draws), plan, emitted, output, run)
    ensures !F.KeysOwnResults(run[|run| - 1])
  {
    var ok;
    output, draws, ok, plan, emitted, run := FinalizeOnly(ctx, suite, now, before, supply);
    TwicePlanned(ctx, suite, now, before.live, spec, item);
    assert !KeysDiffer(plan);
  }
}
