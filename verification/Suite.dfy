/** internal/mapping/mapping.go, MapSuite: the final suite to results and containers. */
module Suite {
  import opened Int64
  import opened Wrappers
  import opened Text
  import opened Timing
  import opened Status
  import opened Identity
  import opened Keys
  import opened Parameters
  import opened ScenarioMapping

  datatype GaugeError = GaugeError(file: string, line: int32, message: string)

  datatype SpecResult = SpecResult(spec: Option<Spec>, errors: seq<Option<GaugeError>>, timestamp: Option<Instant>,
                                   duration: int64)

  datatype SuiteResult = SuiteResult(specs: seq<Option<SpecResult>>, timestamp: Option<Instant>, duration: int64,
                                     failed: bool, hooksImportable: bool)

  datatype Scope = ScenarioHooks | SpecHooks | SuiteHooks

  datatype Container = Container(uuid: string, scope: Scope, children: seq<string>, start: int64, stop: int64)

  datatype SuiteOutput = SuiteOutput(results: seq<Artifact>, containers: seq<Container>)

  // ---------------------------------------------------------------- the plan of a suite

  /** What a suite calls for, in protocol order: one entry for each result to come. */
  datatype Planned =
    | Synthetic(key: string, status: Status, at: int64)
    | Attempt(key: string, file: string, item: SpecItem, scenario: Scenario, retry: int32, live: LiveInfo,
              table: Option<Table>)

  const ZERO_TIME_MILLIS: int64 := -62135596800000

  function MillisOf(time: Instant): int64 {
    if time.ZeroTime? then ZERO_TIME_MILLIS else time.millis
  }

  function SuiteRange(suite: SuiteResult, now: Instant): Range {
    Resolve(suite.timestamp, suite.duration, now)
  }

  /** A scenario item with its scenario; so does a table-driven one count whose table is missing. */
  predicate IsPlain(item: SpecItem, scenario: Option<Scenario>) {
    && (item.kind == ScenarioKind || (item.kind == TableDrivenKind && item.driven.None?))
    && item.scenario.Some? && scenario == item.scenario
  }

  /** A table-driven item with the scenario of its row. */
  predicate IsDriven(item: SpecItem, scenario: Option<Scenario>) {
    && item.kind == TableDrivenKind && item.driven.Some? && item.driven.value.scenario.Some?
    && scenario == item.driven.value.scenario
  }

  /** The scenario of an item the suite loop does not skip. */
  function Executed(item: Option<SpecItem>): (r: Option<Scenario>)
    ensures forall s ::
              r == Some(s) <==> item.Some? && (IsPlain(item.value, Some(s)) || IsDriven(item.value, Some(s)))
  {
    if item.Some? &&
      (item.value.kind == ScenarioKind || item.value.kind == TableDrivenKind) then ScenarioOf(item.value) else None
  }

  /** The range of an attempt without lifecycle data: its duration from the cursor on, cut at the spec's end. */
  function FallbackRange(cursor: int64, duration: int64, specRange: Range): Range {
    Range(cursor, Min(Add(cursor, Max(duration, 0)), specRange.stop))
  }

  /** An executed scenario with its attempt key, before it gets a time range. */
  datatype Seed = Seed(key: string, item: SpecItem, scenario: Scenario, retry: int32)

  /** How the scenarios of one specification get their keys. */
  type Seeder = (SpecItem, Scenario) -> Seed

  function SeederOf(ctx: Context, spec: Spec): Seeder {
    (item: SpecItem, scenario: Scenario) =>
      var retry := RetryIndex(scenario.retriesCount);
      Seed(KeyOf(ctx, spec.file, item, scenario, retry), item, scenario, retry)
  }

  function Seeds(seeder: Seeder, items: seq<Option<SpecItem>>): seq<Seed> {
    if items == [] then []
    else (if Executed(items[0]).None? then [] else [seeder(items[0].value, Executed(items[0]).value)]) +
         Seeds(seeder, items[1..])
  }

  /** Lifecycle data where there is any, otherwise a fallback range. */
  function LiveOf(seed: Seed, cursor: int64, specRange: Range, live: map<string, LiveInfo>): LiveInfo {
    if seed.key in live then live[seed.key]
    else LiveInfo(FallbackRange(cursor, seed.scenario.executionTime, specRange), 0, 0, seed.retry)
  }

  /** Attempts take their ranges in item order; the cursor never moves back. */
  function Timed(spec: Spec, seeds: seq<Seed>, cursor: int64, specRange: Range,
                 live: map<string, LiveInfo>): seq<Planned> {
    if seeds == [] then []
    else
      var seed := seeds[0];
      var info := LiveOf(seed, cursor, specRange, live);
      [Attempt(seed.key, spec.file, seed.item, seed.scenario, seed.retry, info, FindSpecTable(spec))] +
      Timed(spec, seeds[1..], Max(cursor, info.range.stop), specRange, live)
  }

  /** The key of the n-th error of one specification. */
  type ErrorNamer = (GaugeError, nat) -> string

  function ErrorNamerOf(ctx: Context, spec: Spec): ErrorNamer {
    (error: GaugeError, index: nat) =>
      "error:" + CanonicalPath(ctx.root, First([error.file, spec.file])) + ":" + Decimal(error.line) + ":" +
        Decimal(index) + ":" + error.message
  }

  function PlanErrors(namer: ErrorNamer, errors: seq<Option<GaugeError>>, index: nat, at: int64): seq<Planned> {
    if errors == [] then []
    else (if errors[0].None? then [] else [Synthetic(namer(errors[0].value, index), Broken, at)]) +
         PlanErrors(namer, errors[1..], index + 1, at)
  }

  function PlanContent(ctx: Context, spec: Spec, errors: seq<Option<GaugeError>>, at: int64, specRange: Range,
                       live: map<string, LiveInfo>): seq<Planned> {
    PlanErrors(ErrorNamerOf(ctx, spec), errors, 0, at) + Timed(spec, Seeds(SeederOf(ctx, spec), spec.items),
                                                               specRange.start, specRange, live)
  }

  /** What the specification result at one index calls for. */
  type SpecPlanner = (Option<SpecResult>, nat) -> seq<Planned>

  function SpecPlannerOf(ctx: Context, suiteRange: Range, live: map<string, LiveInfo>): SpecPlanner {
    (specResult: Option<SpecResult>, index: nat) =>
      match specResult
      case None => [Synthetic("protocol:nil-spec:" + Decimal(index), Broken, suiteRange.start)]
      case Some(SpecResult(None, _, _, _)) => [Synthetic("protocol:missing-proto-spec:" + Decimal(index), Broken,
                                                         suiteRange.start)]
      case Some(SpecResult(Some(spec), errors, timestamp, duration)) =>
        PlanContent(ctx, spec, errors, if timestamp.Some? then MillisOf(timestamp.value) else suiteRange.start,
                    Resolve(timestamp, duration, At(suiteRange.start)), live)
  }

  function PlanSpecs(planner: SpecPlanner, specs: seq<Option<SpecResult>>, index: nat): seq<Planned> {
    if specs == [] then [] else planner(specs[0], index) + PlanSpecs(planner, specs[1..], index + 1)
  }

  function EmptyEntry(suite: SuiteResult, range: Range): Planned {
    Synthetic("suite:empty", if suite.failed then Broken else Skipped, range.start)
  }

  /** A suite without anything to report still gets one synthetic entry. */
  function Plan(ctx: Context, suite: SuiteResult, now: Instant, live: map<string, LiveInfo>): (r: seq<Planned>)
    ensures r != []
  {
    var range := SuiteRange(suite, now);
    var plan := PlanSpecs(SpecPlannerOf(ctx, range, live), suite.specs, 0);
    if plan == [] then [EmptyEntry(suite, range)] else plan
  }

  // ---------------------------------------------------------------- conservation

  function CountExecuted(items: seq<Option<SpecItem>>): nat {
    if items == [] then 0 else (if Executed(items[0]).Some? then 1 else 0) + CountExecuted(items[1..])
  }

  function CountErrors(errors: seq<Option<GaugeError>>): nat {
    if errors == [] then 0 else (if errors[0].Some? then 1 else 0) + CountErrors(errors[1..])
  }

  /** Nil specs, missing proto specs, reported errors and executed scenarios. */
  function Evidence(specs: seq<Option<SpecResult>>): nat {
    if specs == [] then 0
    else
      Evidence(specs[1..]) +
      if specs[0].None? || specs[0].value.spec.None? then 1
      else CountErrors(specs[0].value.errors) + CountExecuted(specs[0].value.spec.value.items)
  }

  lemma {:induction false} SeedsConserve(seeder: Seeder, items: seq<Option<SpecItem>>)
    ensures |Seeds(seeder, items)| == CountExecuted(items)
  {
    if items != [] {
      SeedsConserve(seeder, items[1..]);
    }
  }

  lemma {:induction false} TimedConserves(spec: Spec, seeds: seq<Seed>, cursor: int64, specRange: Range,
                                          live: map<string, LiveInfo>)
    ensures |Timed(spec, seeds, cursor, specRange, live)| == |seeds|
  {
    if seeds != [] {
      TimedConserves(spec, seeds[1..], Max(cursor, LiveOf(seeds[0], cursor, specRange, live).range.stop), specRange,
                     live);
    }
  }

  lemma {:induction false} PlanErrorsConserves(namer: ErrorNamer, errors: seq<Option<GaugeError>>, index: nat,
                                               at: int64)
    ensures |PlanErrors(namer, errors, index, at)| == CountErrors(errors)
  {
    if errors != [] {
      PlanErrorsConserves(namer, errors[1..], index + 1, at);
    }
  }

  lemma PlanContentConserves(ctx: Context, spec: Spec, errors: seq<Option<GaugeError>>, at: int64, specRange: Range,
                             live: map<string, LiveInfo>)
    ensures |PlanContent(ctx, spec, errors, at, specRange, live)| == CountErrors(errors) + CountExecuted(spec.items)
  {
    PlanErrorsConserves(ErrorNamerOf(ctx, spec), errors, 0, at);
    SeedsConserve(SeederOf(ctx, spec), spec.items);
    TimedConserves(spec, Seeds(SeederOf(ctx, spec), spec.items), specRange.start, specRange, live);
  }

  /** One planned result for each piece of evidence in the suite. */
  lemma {:induction false} PlanConserves(ctx: Context, specs: seq<Option<SpecResult>>, index: nat, suiteRange: Range,
                                         live: map<string, LiveInfo>)
    ensures |PlanSpecs(SpecPlannerOf(ctx, suiteRange, live), specs, index)| == Evidence(specs)
  {
    if specs != [] {
      PlanConserves(ctx, specs[1..], index + 1, suiteRange, live);
      match specs[0]
      case Some(SpecResult(Some(spec), errors, timestamp, duration)) =>
        PlanContentConserves(ctx, spec, errors, if timestamp.Some? then MillisOf(timestamp.value) else suiteRange.start,
                             Resolve(timestamp, duration, At(suiteRange.start)), live);
      case _ =>
    }
  }

  // ---------------------------------------------------------------- what stands where in the plan

  /** Lists put together part by part, each part made of one element and its index. */
  function Parts<T, U>(part: (T, nat) -> seq<U>, xs: seq<T>, index: nat): seq<U> {
    if xs == [] then [] else part(xs[0], index) + Parts(part, xs[1..], index + 1)
  }

  lemma SlicesOfTail<T>(xs: seq<T>, k: nat)
    requires 0 < k < |xs|
    ensures xs[1..][..k - 1] == xs[..k][1..] && xs[1..][k..] == xs[k + 1..] && xs[1..][k - 1] == xs[k]
  {
  }

  lemma Regroup<T>(a: seq<T>, b: seq<T>, c: seq<T>, d: seq<T>)
    ensures a + (b + c + d) == (a + b) + c + d
  {
  }

  lemma {:induction false} PartAt<T, U>(part: (T, nat) -> seq<U>, xs: seq<T>, index: nat, k: nat)
    requires k < |xs|
    ensures Parts(part, xs, index) ==
            Parts(part, xs[..k], index) + part(xs[k], index + k) + Parts(part, xs[k + 1..], index + k + 1)
  {
    if k == 0 {
      assert xs[..0] == [];
    } else {
      PartAt(part, xs[1..], index + 1, k - 1);
      SlicesOfTail(xs, k);
      Regroup(part(xs[0], index), Parts(part, xs[1..k], index + 1), part(xs[k], index + k),
              Parts(part, xs[k + 1..], index + k + 1));
    }
  }

  lemma {:induction false} SpecsAreParts(planner: SpecPlanner, specs: seq<Option<SpecResult>>, index: nat)
    ensures PlanSpecs(planner, specs, index) == Parts(planner, specs, index)
  {
    if specs != [] {
      SpecsAreParts(planner, specs[1..], index + 1);
    }
  }

  function ErrorPart(namer: ErrorNamer, at: int64): (Option<GaugeError>, nat) -> seq<Planned> {
    (error: Option<GaugeError>, n: nat) => if error.None? then [] else [Synthetic(namer(error.value, n), Broken, at)]
  }

  lemma {:induction false} ErrorsAreParts(namer: ErrorNamer, errors: seq<Option<GaugeError>>, index: nat, at: int64)
    ensures PlanErrors(namer, errors, index, at) == Parts(ErrorPart(namer, at), errors, index)
  {
    if errors != [] {
      ErrorsAreParts(namer, errors[1..], index + 1, at);
    }
  }

  function SeedPart(seeder: Seeder): (Option<SpecItem>, nat) -> seq<Seed> {
    (item: Option<SpecItem>, n: nat) => if Executed(item).None? then [] else [seeder(item.value, Executed(item).value)]
  }

  lemma {:induction false} SeedsAreParts(seeder: Seeder, items: seq<Option<SpecItem>>, index: nat)
    ensures Seeds(seeder, items) == Parts(SeedPart(seeder), items, index)
  {
    if items != [] {
      SeedsAreParts(seeder, items[1..], index + 1);
    }
  }

  /** The entry of the n-th error, among those of its specification. */
  lemma ErrorAt(namer: ErrorNamer, errors: seq<Option<GaugeError>>, n: nat, at: int64)
    requires n < |errors| && errors[n].Some?
    ensures var plan, k := PlanErrors(namer, errors, 0, at), CountErrors(errors[..n]);
            k < |plan| && plan[k] == Synthetic(namer(errors[n].value, n), Broken, at)
  {
    ErrorsAreParts(namer, errors, 0, at);
    ErrorsAreParts(namer, errors[..n], 0, at);
    PlanErrorsConserves(namer, errors[..n], 0, at);
    PartAt(ErrorPart(namer, at), errors, 0, n);
  }

  lemma SeedAt(seeder: Seeder, items: seq<Option<SpecItem>>, j: nat)
    requires j < |items| && Executed(items[j]).Some?
    ensures var seeds, k := Seeds(seeder, items), CountExecuted(items[..j]);
            k < |seeds| && seeds[k] == seeder(items[j].value, Executed(items[j]).value)
  {
    SeedsAreParts(seeder, items, 0);
    SeedsAreParts(seeder, items[..j], 0);
    SeedsConserve(seeder, items[..j]);
    PartAt(SeedPart(seeder), items, 0, j);
  }

  /** The latest stop of the first k entries, or the start of the specification. */
  function Latest(plan: seq<Planned>, k: nat, start: int64): int64
    requires k <= |plan| && forall p <- plan :: p.Attempt?
  {
    if k == 0 then start else Max(Latest(plan, k - 1, start), plan[k - 1].live.range.stop)
  }

  /** Lifecycle data where there is any; otherwise the reported duration from `from` on, as far as there is room. */
  predicate IsTimedFrom(p: Planned, from: int64, specRange: Range, live: map<string, LiveInfo>)
    requires p.Attempt?
  {
    if p.key in live then p.live == live[p.key]
    else
      && p.live.range.start == from && p.live.stream == p.live.runner == 0 && p.live.retry == p.retry
      && (from + Max(p.scenario.executionTime, 0) <= MAX_INT64 ==>
            p.live.range.stop == Min(from + Max(p.scenario.executionTime, 0), specRange.stop))
  }

  lemma {:induction false} LatestShifts(head: Planned, rest: seq<Planned>, k: nat, start: int64)
    requires head.Attempt? && (forall p <- rest :: p.Attempt?) && k <= |rest|
    ensures forall p <- [head] + rest :: p.Attempt?
    ensures Latest([head] + rest, k + 1, start) == Latest(rest, k, Max(start, head.live.range.stop))
  {
    if k > 0 {
      LatestShifts(head, rest, k - 1, start);
    }
  }

  lemma {:induction false} AllAttempts(spec: Spec, seeds: seq<Seed>, cursor: int64, specRange: Range,
                                       live: map<string, LiveInfo>)
    ensures |Timed(spec, seeds, cursor, specRange, live)| == |seeds|
    ensures forall p <- Timed(spec, seeds, cursor, specRange, live) :: p.Attempt?
  {
    if seeds != [] {
      AllAttempts(spec, seeds[1..], Max(cursor, LiveOf(seeds[0], cursor, specRange, live).range.stop), specRange, live);
    }
  }

  /** The k-th executed scenario: its key, file, item, scenario, retry and table, and where it lies in time. */
  lemma {:induction false} TimedAt(spec: Spec, seeds: seq<Seed>, cursor: int64, specRange: Range,
                                   live: map<string, LiveInfo>, k: nat)
    requires k < |seeds|
    ensures var plan := Timed(spec, seeds, cursor, specRange, live);
            && |plan| == |seeds| && (forall p <- plan :: p.Attempt?)
            && plan[k].key == seeds[k].key && plan[k].file == spec.file && plan[k].item == seeds[k].item
            && plan[k].scenario == seeds[k].scenario && plan[k].retry == seeds[k].retry
            && plan[k].table == FindSpecTable(spec)
            && IsTimedFrom(plan[k], Latest(plan, k, cursor), specRange, live)
  {
    AllAttempts(spec, seeds, cursor, specRange, live);
    if k > 0 {
      var next := Max(cursor, LiveOf(seeds[0], cursor, specRange, live).range.stop);
      var plan, rest := Timed(spec, seeds, cursor, specRange, live), Timed(spec, seeds[1..], next, specRange, live);
      TimedAt(spec, seeds[1..], next, specRange, live, k - 1);
      assert plan == [plan[0]] + rest;
      LatestShifts(plan[0], rest, k - 1, cursor);
    }
  }

  lemma {:induction false} FirstTableAt(items: seq<Option<SpecItem>>, i: nat)
    requires i <= |items|
    requires forall j :: 0 <= j < i ==> items[j].None? || items[j].value.kind != TableKind || items[j].value.table.None?
    requires i < |items| ==> items[i].Some? && items[i].value.kind == TableKind && items[i].value.table.Some?
    ensures FirstTable(items) == if i < |items| then items[i].value.table else None
  {
    if i > 0 {
      FirstTableAt(items[1..], i - 1);
    }
  }

  /** A table-driven spec has the table of its first table item that has one; no other spec has a table. */
  lemma SpecTableExactly(spec: Spec, i: nat)
    requires i <= |spec.items|
    requires forall j :: 0 <= j < i ==>
      spec.items[j].None? || spec.items[j].value.kind != TableKind || spec.items[j].value.table.None?
    requires i < |spec.items| ==>
      spec.items[i].Some? && spec.items[i].value.kind == TableKind && spec.items[i].value.table.Some?
    ensures FindSpecTable(spec) == if spec.isTableDriven && i < |spec.items| then spec.items[i].value.table else None
  {
    FirstTableAt(spec.items, i);
  }

  lemma PlannedAt(planner: SpecPlanner, specs: seq<Option<SpecResult>>, k: nat, from: nat)
    requires k < |specs| && |PlanSpecs(planner, specs[..k], 0)| == from
    ensures var plan, part := PlanSpecs(planner, specs, 0), planner(specs[k], k);
            from + |part| <= |plan| && plan[from..from + |part|] == part
  {
    SpecsAreParts(planner, specs, 0);
    SpecsAreParts(planner, specs[..k], 0);
    PartAt(planner, specs, 0, k);
    assert (0 as nat) + k == k;
  }

  /** What one specification result contributes stands behind what those before it contribute. */
  lemma SpecAt(ctx: Context, specs: seq<Option<SpecResult>>, suiteRange: Range, live: map<string, LiveInfo>, k: nat,
               planner: SpecPlanner)
    requires k < |specs| && planner == SpecPlannerOf(ctx, suiteRange, live)
    ensures var plan, from, part := PlanSpecs(planner, specs, 0), Evidence(specs[..k]), planner(specs[k], k);
            from + |part| <= |plan| && plan[from..from + |part|] == part
  {
    PlanConserves(ctx, specs[..k], 0, suiteRange, live);
    PlannedAt(planner, specs, k, Evidence(specs[..k]));
  }

  /** The entry of an executed scenario: what it is of, and under which key. */
  predicate IsAttemptOf(ctx: Context, spec: Spec, item: SpecItem, scenario: Scenario, p: Planned) {
    && p.Attempt? && p.item == item && p.scenario == scenario && p.file == spec.file
    && p.retry == RetryIndex(scenario.retriesCount) && p.key == KeyOf(ctx, spec.file, item, scenario, p.retry)
    && p.table == FindSpecTable(spec)
  }

  lemma PlannedGaps(ctx: Context, index: nat, suiteRange: Range, live: map<string, LiveInfo>,
                    errors: seq<Option<GaugeError>>, timestamp: Option<Instant>, duration: int64)
    ensures SpecPlannerOf(ctx, suiteRange, live)(None, index) ==
      [Synthetic("protocol:nil-spec:" + Decimal(index), Broken, suiteRange.start)]
    ensures SpecPlannerOf(ctx, suiteRange, live)(Some(SpecResult(None, errors, timestamp, duration)), index) ==
            [Synthetic("protocol:missing-proto-spec:" + Decimal(index), Broken, suiteRange.start)]
  {
  }

  lemma PlannedContent(ctx: Context, index: nat, suiteRange: Range, live: map<string, LiveInfo>, spec: Spec,
                       errors: seq<Option<GaugeError>>, timestamp: Option<Instant>, duration: int64)
    ensures SpecPlannerOf(ctx, suiteRange, live)(Some(SpecResult(Some(spec), errors, timestamp, duration)), index) ==
            PlanContent(ctx, spec, errors, if timestamp.Some? then MillisOf(timestamp.value) else suiteRange.start,
                        Resolve(timestamp, duration, At(suiteRange.start)), live)
  {
  }

  lemma ContentParts(ctx: Context, spec: Spec, errors: seq<Option<GaugeError>>, at: int64, range: Range,
                     live: map<string, LiveInfo>, namer: ErrorNamer, seeder: Seeder)
    requires namer == ErrorNamerOf(ctx, spec) && seeder == SeederOf(ctx, spec)
    ensures PlanContent(ctx, spec, errors, at, range, live) ==
            PlanErrors(namer, errors, 0, at) + Timed(spec, Seeds(seeder, spec.items), range.start, range, live)
  {
  }

  /** The time a specification result reports, as milliseconds, or else that of the suite. */
  predicate IsReportTime(timestamp: Option<Instant>, suiteRange: Range, at: int64) {
    match timestamp
    case None => at == suiteRange.start
    case Some(At(millis)) => at == millis
    case Some(ZeroTime) => at == -62135596800000
  }

  lemma PlannerPlans(ctx: Context, suiteRange: Range, live: map<string, LiveInfo>, spec: Spec,
                     errors: seq<Option<GaugeError>>, timestamp: Option<Instant>, duration: int64, k: nat, at: int64,
                     range: Range, content: seq<Planned>)
    requires IsReportTime(timestamp, suiteRange, at) && range == Resolve(timestamp, duration, At(suiteRange.start))
    requires content == PlanContent(ctx, spec, errors, at, range, live)
    ensures SpecPlannerOf(ctx, suiteRange, live)(Some(SpecResult(Some(spec), errors, timestamp, duration)), k) ==
      content
  {
    PlannedContent(ctx, k, suiteRange, live, spec, errors, timestamp, duration);
  }

  /** The entries of a specification: its reported errors, at its time or else that of the suite, and its attempts. */
  lemma SpecEntries(ctx: Context, suiteRange: Range, live: map<string, LiveInfo>, k: nat, spec: Spec,
                    errors: seq<Option<GaugeError>>, timestamp: Option<Instant>, duration: int64, at: int64,
                    range: Range, planner: SpecPlanner, namer: ErrorNamer, seeder: Seeder)
    requires IsReportTime(timestamp, suiteRange, at) && range == Resolve(timestamp, duration, At(suiteRange.start))
    requires planner == SpecPlannerOf(ctx, suiteRange, live)
    requires namer == ErrorNamerOf(ctx, spec) && seeder == SeederOf(ctx, spec)
    ensures planner(Some(SpecResult(Some(spec), errors, timestamp, duration)), k) ==
            PlanErrors(namer, errors, 0, at) + Timed(spec, Seeds(seeder, spec.items), range.start, range, live)
  {
    PlannerPlans(ctx, suiteRange, live, spec, errors, timestamp, duration, k, at, range,
                 PlanContent(ctx, spec, errors, at, range, live));
    ContentParts(ctx, spec, errors, at, range, live, namer, seeder);
  }

  lemma TimedSeed(ctx: Context, spec: Spec, item: SpecItem, scenario: Scenario, seed: Seed, p: Planned)
    requires seed == SeederOf(ctx, spec)(item, scenario)
    requires p.Attempt? && p.key == seed.key && p.file == spec.file && p.item == seed.item
    requires p.scenario == seed.scenario && p.retry == seed.retry && p.table == FindSpecTable(spec)
    ensures IsAttemptOf(ctx, spec, item, scenario, p)
  {
  }

  /**
   * Every executed scenario has its entry, behind those of the executed scenarios before it: its time is that of its
   * lifecycle data, or follows the latest stop before it in its specification.
   */
  lemma AttemptEntry(ctx: Context, spec: Spec, range: Range, live: map<string, LiveInfo>, j: nat, scenario: Scenario,
                     seeder: Seeder, attempts: seq<Planned>)
    requires j < |spec.items| && Executed(spec.items[j]) == Some(scenario)
    requires seeder == SeederOf(ctx, spec)
    requires attempts == Timed(spec, Seeds(seeder, spec.items), range.start, range, live)
    ensures var i := CountExecuted(spec.items[..j]);
            && (forall p <- attempts :: p.Attempt?) && i < |attempts|
            && IsAttemptOf(ctx, spec, spec.items[j].value, scenario, attempts[i])
            && IsTimedFrom(attempts[i], Latest(attempts, i, range.start), range, live)
  {
    var seeds, i := Seeds(seeder, spec.items), CountExecuted(spec.items[..j]);
    SeedAt(seeder, spec.items, j);
    TimedAt(spec, seeds, range.start, range, live, i);
    TimedSeed(ctx, spec, spec.items[j].value, scenario, seeds[i], attempts[i]);
  }

  /** A specification result that is missing, or has no specification, is one broken entry under its index. */
  lemma GapEntry(ctx: Context, suiteRange: Range, live: map<string, LiveInfo>, specResult: Option<SpecResult>, k: nat,
                 key: string, planner: SpecPlanner)
    requires specResult.None? || specResult.value.spec.None?
    requires key == (if specResult.None? then "protocol:nil-spec:" else "protocol:missing-proto-spec:") + Decimal(k)
    requires planner == SpecPlannerOf(ctx, suiteRange, live)
    ensures planner(specResult, k) == [Synthetic(key, Broken, suiteRange.start)]
  {
    if specResult.None? {
      PlannedGaps(ctx, k, suiteRange, live, [], None, 0);
    } else {
      var SpecResult(_, errors, timestamp, duration) := specResult.value;
      PlannedGaps(ctx, k, suiteRange, live, errors, timestamp, duration);
    }
  }

  // ---------------------------------------------------------------- fallback ranges

  /** Lifecycle data may not end after its spec, and durations from the cursor on may not overflow. */
  ghost predicate TimesFit(seeds: seq<Seed>, cursor: int64, specRange: Range, live: map<string, LiveInfo>) {
    seeds != [] ==>
      var info := LiveOf(seeds[0], cursor, specRange, live);
      && (if seeds[0].key in live then info.range.stop <= specRange.stop
          else cursor + Max(seeds[0].scenario.executionTime, 0) <= MAX_INT64)
      && TimesFit(seeds[1..], Max(cursor, info.range.stop), specRange, live)
  }

  /** A single fallback range runs forward exactly when the cursor is inside the spec and the sum does not wrap. */
  lemma FallbackRunsForwardExactly(cursor: int64, duration: int64, specRange: Range)
    ensures var r := FallbackRange(cursor, duration, specRange);
            r.start <= r.stop <==> cursor <= specRange.stop && cursor + Max(duration, 0) <= MAX_INT64
  {
  }

  /** The fallback ranges of a plan run forward between `from` and `to`, each after the one before. */
  ghost predicate FallbacksFit(plan: seq<Planned>, live: map<string, LiveInfo>, from: int64, to: int64) {
    && (forall i :: 0 <= i < |plan| ==> plan[i].Attempt?)
    && (forall i :: 0 <= i < |plan| && plan[i].key !in live ==>
          from <= plan[i].live.range.start <= plan[i].live.range.stop <= to)
    && (forall i, j :: 0 <= i < j < |plan| && plan[i].key !in live && plan[j].key !in live ==>
          plan[i].live.range.stop <= plan[j].live.range.start)
  }

  lemma FallbacksFitCons(head: Planned, rest: seq<Planned>, live: map<string, LiveInfo>, from: int64, next: int64,
                         to: int64)
    requires head.Attempt? && from <= next && FallbacksFit(rest, live, next, to)
    requires head.key !in live ==>
      from <= head.live.range.start <= head.live.range.stop <= to && head.live.range.stop <= next
    ensures FallbacksFit([head] + rest, live, from, to)
  {
  }

  /** Whenever a fallback is needed, the cursor is still inside the spec and the duration does not overflow. */
  ghost predicate FallbacksStartInside(seeds: seq<Seed>, cursor: int64, specRange: Range, live: map<string, LiveInfo>) {
    seeds != [] ==>
      && (seeds[0].key !in live ==>
          cursor <= specRange.stop && cursor + Max(seeds[0].scenario.executionTime, 0) <= MAX_INT64)
      && FallbacksStartInside(seeds[1..], Max(cursor, LiveOf(seeds[0], cursor, specRange, live).range.stop), specRange,
                              live)
  }

  /** Fallback ranges lie inside the spec and follow each other without overlap exactly under this condition. */
  lemma {:induction false} FallbacksFitExactly(spec: Spec, seeds: seq<Seed>, from: int64, cursor: int64,
                                               specRange: Range, live: map<string, LiveInfo>)
    requires from <= cursor
    ensures FallbacksFit(Timed(spec, seeds, cursor, specRange, live), live, from, specRange.stop) <==>
            FallbacksStartInside(seeds, cursor, specRange, live)
  {
    if seeds != [] {
      var next := Max(cursor, LiveOf(seeds[0], cursor, specRange, live).range.stop);
      FallbackRunsForwardExactly(cursor, seeds[0].scenario.executionTime, specRange);
      FallbacksFitExactly(spec, seeds[1..], from, next, specRange, live);
      FallbacksFitExactly(spec, seeds[1..], next, next, specRange, live);
      var plan, rest := Timed(spec, seeds, cursor, specRange, live), Timed(spec, seeds[1..], next, specRange, live);
      if FallbacksStartInside(seeds, cursor, specRange, live) {
        FallbacksFitCons(plan[0], rest, live, from, next, specRange.stop);
      } else if FallbacksFit(plan, live, from, specRange.stop) {
        FallbacksFitTail(plan[0], rest, live, from, specRange.stop);
      }
    }
  }

  lemma FallbacksFitTail(head: Planned, rest: seq<Planned>, live: map<string, LiveInfo>, from: int64, to: int64)
    requires FallbacksFit([head] + rest, live, from, to)
    ensures FallbacksFit(rest, live, from, to)
    ensures head.Attempt? && (head.key !in live ==> head.live.range.start <= head.live.range.stop <= to)
  {
    var plan := [head] + rest;
    assert plan[0] == head && forall i :: 0 <= i < |rest| ==> rest[i] == plan[i + 1];
  }

  lemma {:induction false} FittingTimesStartInside(seeds: seq<Seed>, cursor: int64, specRange: Range,
                                                   live: map<string, LiveInfo>)
    requires cursor <= specRange.stop && TimesFit(seeds, cursor, specRange, live)
    ensures FallbacksStartInside(seeds, cursor, specRange, live)
  {
    if seeds != [] {
      FittingTimesStartInside(seeds[1..], Max(cursor, LiveOf(seeds[0], cursor, specRange, live).range.stop), specRange,
                              live);
    }
  }

  /** In particular when no lifecycle data ends after its spec. */
  lemma FallbacksDoNotOverlap(spec: Spec, seeds: seq<Seed>, cursor: int64, specRange: Range,
                              live: map<string, LiveInfo>)
    requires specRange.start <= cursor <= specRange.stop && TimesFit(seeds, cursor, specRange, live)
    ensures FallbacksFit(Timed(spec, seeds, cursor, specRange, live), live, cursor, specRange.stop)
  {
    FittingTimesStartInside(seeds, cursor, specRange, live);
    FallbacksFitExactly(spec, seeds, cursor, cursor, specRange, live);
  }

  /** Without any fit: a fallback range runs backwards after lifecycle data that ends after its spec. */
  lemma LateLiveDataBreaksFallbacks(spec: Spec, first: Seed, second: Seed, specRange: Range,
                                    live: map<string, LiveInfo>)
    requires first.key in live && live[first.key].range.stop > specRange.stop >= specRange.start && second.key !in live
    ensures var plan := Timed(spec, [first, second], specRange.start, specRange, live);
            |plan| == 2 && plan[1].Attempt? && plan[1].live.range.stop < plan[1].live.range.start
  {
    var seeds := [first, second];
    var next := Max(specRange.start, live[first.key].range.stop);
    assert seeds[1..] == [second] && [second][1..] == [];
    assert |Timed(spec, [second], next, specRange, live)| == 1;
  }
}
