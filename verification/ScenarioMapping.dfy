/** internal/mapping/mapping.go, mapScenario and what it rests on: one attempt becomes one result. */
module ScenarioMapping {
  import opened Int64
  import opened Wrappers
  import opened Text
  import opened Timing
  import opened Status
  import opened Identity
  import opened Keys
  import opened StepTree
  import opened StepTreeShape
  import opened StepTreeTiming
  import opened Parameters

  /**
   * `skipReported`: the scenario carries skip errors; `hookFailed`: a pre- or post-hook failure;
   * `hooksImportable`: every attachment of its hooks can be imported.
   */
  datatype Scenario = Scenario(id: string, heading: string, start: int64, end: int64,
                               retriesCount: int64, executionTime: int64, executionStatus: ExecutionStatus,
                               skipReported: bool, hookFailed: bool, hooksImportable: bool,
                               contexts: seq<Item>, items: seq<Item>, teardown: seq<Item>)

  datatype Driven = Driven(scenario: Option<Scenario>, row: TableRow)

  datatype ItemKind = ScenarioKind | TableDrivenKind | TableKind | OtherKind

  /** An item of a specification: the protocol fills the fields its kind calls for, or leaves them nil. */
  datatype SpecItem = SpecItem(kind: ItemKind, file: string, scenario: Option<Scenario>, driven: Option<Driven>,
                               table: Option<Table>)

  datatype Spec = Spec(file: string, isTableDriven: bool, items: seq<Option<SpecItem>>, hooksImportable: bool)

  /** The configuration and environment of a mapper. `digest` stands for SHA-256. */
  datatype Context = Context(root: string, projectNames: seq<string>, privacy: Privacy, digest: string -> string,
                             contextMode: Mode, teardownMode: Mode, maxDepth: nat, strict: bool, attachments: bool)

  datatype LiveInfo = LiveInfo(range: Range, stream: int32, runner: int32, retry: int32)

  /** The fields of an Allure result that reconciliation and history depend on; history before hashing. */
  datatype TestResult = TestResult(uuid: string, fullName: string, testCaseId: string, historyText: string,
                                   status: Status,
                                   parameters: seq<Parameter>, stream: int32, runner: int32,
                                   start: int64, stop: int64, steps: seq<StepResult>)

  datatype Artifact = Artifact(key: string, result: TestResult)

  function ScenarioOf(item: SpecItem): Option<Scenario> {
    if item.kind == TableDrivenKind && item.driven.Some? then item.driven.value.scenario else item.scenario
  }

  function RowOf(item: SpecItem): Option<TableRow> {
    if item.kind == TableDrivenKind && item.driven.Some? then Some(item.driven.value.row) else None
  }

  function FindSpecTable(spec: Spec): Option<Table> {
    if spec.isTableDriven then FirstTable(spec.items) else None
  }

  function FirstTable(items: seq<Option<SpecItem>>): Option<Table> {
    if items == [] then None
    else match items[0]
      case Some(SpecItem(TableKind, _, _, _, Some(table))) => Some(table)
      case _ => FirstTable(items[1..])
  }

  // ---------------------------------------------------------------- identity

  function ProjectOf(ctx: Context): string {
    First(ctx.projectNames + [Base(ctx.root)])
  }

  function PathOf(ctx: Context, specFile: string, item: SpecItem): string {
    CanonicalPath(ctx.root, First([specFile, item.file]))
  }

  /** scenarioIdentity: the canonical text. Neither retry nor table values enter it. */
  function CanonicalOf(ctx: Context, specFile: string, item: SpecItem, scenario: Scenario): string {
    ScenarioIdentity(ProjectOf(ctx), PathOf(ctx, specFile, item), scenario.id, scenario.heading, scenario.start,
                     scenario.end)
  }

  function KeyOf(ctx: Context, specFile: string, item: SpecItem, scenario: Scenario, retry: int32): string {
    AttemptKey(CanonicalOf(ctx, specFile, item, scenario), SpecRow(item), ScenarioRow(item), retry)
  }

  function SpecRow(item: SpecItem): int32 {
    if RowOf(item).Some? then RowOf(item).value.specRow else 0
  }

  function ScenarioRow(item: SpecItem): int32 {
    if RowOf(item).Some? then RowOf(item).value.scenarioRow else 0
  }

  /** The indices of the row an item runs on; an item without a row counts as the first one. */
  predicate RunsRow(item: SpecItem, specRow: int32, scenarioRow: int32) {
    match item
    case SpecItem(TableDrivenKind, _, _, Some(Driven(_, row)), _) =>
      row.specRow == specRow && row.scenarioRow == scenarioRow
    case _ => specRow == 0 == scenarioRow
  }

  /** The project goes by the first name of the environment that is not blank, or else by its directory. */
  lemma ProjectExactly(ctx: Context, i: nat)
    requires i <= |ctx.projectNames| && forall j :: 0 <= j < i ==> IsBlank(ctx.projectNames[j])
    requires i < |ctx.projectNames| ==> !IsBlank(ctx.projectNames[i])
    ensures i < |ctx.projectNames| ==> ProjectOf(ctx) == ctx.projectNames[i]
    ensures i == |ctx.projectNames| && !IsBlank(Base(ctx.root)) ==> ProjectOf(ctx) == Base(ctx.root)
  {
    var names := ctx.projectNames + [Base(ctx.root)];
    FirstExactly(names, if i == |ctx.projectNames| && IsBlank(Base(ctx.root)) then i + 1 else i);
  }

  lemma IdentitiesAgreeExactly(ctx: Context, liveFile: string, finalFile: string, item: SpecItem, scenario: Scenario)
    ensures CanonicalOf(ctx, liveFile, item, scenario) == CanonicalOf(ctx, finalFile, item, scenario) <==>
            PathOf(ctx, liveFile, item) == PathOf(ctx, finalFile, item)
  {
    if CanonicalOf(ctx, liveFile, item, scenario) == CanonicalOf(ctx, finalFile, item, scenario) {
      IdentityDeterminesPath(ProjectOf(ctx), PathOf(ctx, liveFile, item), PathOf(ctx, finalFile, item),
                             scenario.id, scenario.heading, scenario.start, scenario.end);
    }
  }

  /** Reports that name the same file have one key exactly if they are of one attempt: scenario, rows and retry. */
  lemma KeysTellAttempts(ctx: Context, file: string, item: SpecItem, scenario: Scenario, retry: int32, specRow: int32,
                         scenarioRow: int32, file': string, item': SpecItem, scenario': Scenario, retry': int32,
                         specRow': int32, scenarioRow': int32)
    requires PathOf(ctx, file, item) == PathOf(ctx, file', item')
    requires RunsRow(item, specRow, scenarioRow) && RunsRow(item', specRow', scenarioRow')
    ensures (KeyOf(ctx, file, item, scenario, retry) == KeyOf(ctx, file', item', scenario', retry')) <==>
            && IsSameScenario(scenario.id, scenario.heading, scenario.start, scenario.end, scenario'.id,
                              scenario'.heading, scenario'.start, scenario'.end)
            && specRow == specRow' && scenarioRow == scenarioRow' && retry == retry'
  {
    var c, c' := CanonicalOf(ctx, file, item, scenario), CanonicalOf(ctx, file', item', scenario');
    IdentityTellsScenarios(ProjectOf(ctx), PathOf(ctx, file, item), scenario.id, scenario.heading, scenario.start,
                           scenario.end, scenario'.id, scenario'.heading, scenario'.start, scenario'.end);
    if AttemptKey(c, SpecRow(item), ScenarioRow(item), retry) ==
      AttemptKey(c', SpecRow(item'), ScenarioRow(item'), retry') {
      AttemptKeyInjective(c, SpecRow(item), ScenarioRow(item), retry, c', SpecRow(item'), ScenarioRow(item'), retry');
    }
  }

  /**
   * The attempt a lifecycle event reports with zero-based `retry` is the one the final suite reports
   * with `retriesCount` attempts exactly when the file names canonicalise alike and the counts match.
   */
  lemma KeysAgreeExactly(ctx: Context, liveFile: string, finalFile: string, item: SpecItem, scenario: Scenario,
                         retry: int32)
    requires 0 <= retry
    ensures (KeyOf(ctx, liveFile, item, scenario, retry) ==
             KeyOf(ctx, finalFile, item, scenario, RetryIndex(scenario.retriesCount))) <==>
            && PathOf(ctx, liveFile, item) == PathOf(ctx, finalFile, item)
            && (scenario.retriesCount == retry + 1
                || (retry == 0 && scenario.retriesCount < 1)
                || (retry == MAX_RETRY && scenario.retriesCount > MAX_RETRY))
  {
    IdentitiesAgreeExactly(ctx, liveFile, finalFile, item, scenario);
    RetriesMeetExactly(CanonicalOf(ctx, liveFile, item, scenario), CanonicalOf(ctx, finalFile, item, scenario),
                       SpecRow(item), ScenarioRow(item), retry, scenario.retriesCount);
  }

  /** An absolute name in the lifecycle event and a relative one in the final suite still meet in one key. */
  lemma AbsoluteEventMeetsRelativeSuite(ctx: Context, tail: string, item: SpecItem, scenario: Scenario, retry: int32)
    requires IsCheckout(ctx.root) && !IsBlank(tail) && !IsBlank(ctx.root + "/" + tail)
    requires !IsSpace(tail[0]) && tail[0] != '/' && tail[0] != '\\'
    requires 0 <= retry && scenario.retriesCount == retry + 1
    ensures KeyOf(ctx, ctx.root + "/" + tail, item, scenario, retry) ==
      KeyOf(ctx, tail, item, scenario, RetryIndex(scenario.retriesCount))
  {
    AbsoluteAgreesWithRelative(ctx.root, tail);
    assert PathOf(ctx, ctx.root + "/" + tail, item) == CanonicalPath(ctx.root, ctx.root + "/" + tail);
    assert PathOf(ctx, tail, item) == CanonicalPath(ctx.root, tail);
    KeysAgreeExactly(ctx, ctx.root + "/" + tail, tail, item, scenario, retry);
  }

  // ---------------------------------------------------------------- status

  /** findStepFailure: the first failed step execution, concepts searched in place. */
  function FindFailure(items: seq<Item>): Option<Execution>
    decreases items
  {
    if items == [] then None
    else
      match items[0]
      case StepItem(Some(Step(_, _, Some(StepExecution(_, _, Some(execution))), _))) =>
        if execution.failed then Some(execution) else FindFailure(items[1..])
      case ConceptItem(Some(concept)) =>
        assert items decreases to items[0];
        assert items[0] decreases to concept.steps;
        var inner := FindFailure(concept.steps);
        if inner.Some? then inner else FindFailure(items[1..])
      case _ => FindFailure(items[1..])
  }

  /** The execution results of all steps in the order of the search; a concept stands for the steps inside it. */
  function Executions(items: seq<Item>): seq<Execution>
    decreases items
  {
    if items == [] then []
    else
      (match items[0]
       case StepItem(Some(Step(_, _, Some(StepExecution(_, _, Some(execution))), _))) => [execution]
       case ConceptItem(Some(concept)) =>
         assert items decreases to items[0];
         assert items[0] decreases to concept.steps;
         Executions(concept.steps)
       case _ => []) + Executions(items[1..])
  }

  predicate IsFirstFailed(executions: seq<Execution>, k: nat) {
    k < |executions| && executions[k].failed && forall j :: 0 <= j < k ==> !executions[j].failed
  }

  lemma FirstFailedConcat(a: seq<Execution>, b: seq<Execution>, k: nat)
    ensures IsFirstFailed(a, k) ==> IsFirstFailed(a + b, k)
    ensures (forall e <- a :: !e.failed) && IsFirstFailed(b, k) ==> IsFirstFailed(a + b, |a| + k)
  {
  }

  /** It finds the first failed execution, wherever it is nested, and nothing only if none failed. */
  lemma {:induction false} FindFailureExactly(items: seq<Item>) returns (k: nat)
    ensures FindFailure(items).None? ==> forall e <- Executions(items) :: !e.failed
    ensures FindFailure(items).Some? ==>
              IsFirstFailed(Executions(items), k) && Executions(items)[k] == FindFailure(items).value
    decreases items
  {
    k := 0;
    if items != [] {
      var own: seq<Execution> := [];
      var rest := Executions(items[1..]);
      var inner := 0;
      match items[0] {
        case StepItem(Some(Step(_, _, Some(StepExecution(_, _, Some(execution))), _))) => own := [execution];
        case ConceptItem(Some(concept)) =>
          assert items decreases to items[0];
          assert items[0] decreases to concept.steps;
          own := Executions(concept.steps);
          inner := FindFailureExactly(concept.steps);
        case _ =>
      }
      var later := FindFailureExactly(items[1..]);
      assert Executions(items) == own + rest;
      FirstFailedConcat(own, rest, inner);
      FirstFailedConcat(own, rest, later);
      k := if IsFirstFailed(own, inner) then inner else |own| + later;
    }
  }

  function FirstFailure(scenario: Scenario): Option<Execution> {
    FindFailure(scenario.contexts + scenario.items + scenario.teardown)
  }

  /** scenarioStatus: skips, then hooks, then the execution status refined by the first failed step. */
  function ScenarioStatus(scenario: Scenario): (r: Status)
    ensures r == Skipped <==> scenario.executionStatus == StatusSkipped || scenario.skipReported
    ensures r == Passed <==> scenario.executionStatus == StatusPassed && !scenario.skipReported && !scenario.hookFailed
    ensures r == Failed <==>
      && scenario.executionStatus == StatusFailed && !scenario.skipReported && !scenario.hookFailed
      && exists failure ::
           FindFailure(scenario.contexts + scenario.items + scenario.teardown) == Some(failure) &&
             failure.kind in {ErrorAssertion, ErrorVerification}
  {
    if scenario.executionStatus == StatusSkipped || scenario.skipReported then Skipped
    else if scenario.hookFailed then Broken
    else if scenario.executionStatus == StatusFailed then
      var failure := FirstFailure(scenario);
      FromExecutionStatus(StatusFailed, false, if failure.None? then ErrorProtocol else failure.value.kind)
    else FromExecutionStatus(scenario.executionStatus, false, ErrorNone)
  }

  // ---------------------------------------------------------------- mapScenario

  function StepConfig(ctx: Context, copyAttachments: bool): Config {
    Config(ctx.maxDepth, ctx.strict && ctx.attachments && copyAttachments)
  }

  function PromotedColumns(ctx: Context, scenario: Scenario): seq<(string, string)> {
    Promoted(ctx.privacy.promote, ArgumentName, Arguments(scenario.contexts + scenario.items + scenario.teardown))
  }

  /** The logical parameters of a scenario: its table row, then its promoted step arguments. */
  function LogicalParameters(ctx: Context, item: SpecItem, scenario: Scenario,
                             specTable: Option<Table>): seq<(string, string)> {
    var columns := TableColumns(RowOf(item), specTable);
    var promoted := PromotedColumns(ctx, scenario);
    LogicalOf(ctx.privacy, columns, |columns|) + LogicalOf(ctx.privacy, promoted, |promoted|)
  }

  function ShownParameters(ctx: Context, item: SpecItem, scenario: Scenario, specTable: Option<Table>,
                           retry: int32): seq<Parameter> {
    var columns := TableColumns(RowOf(item), specTable);
    var promoted := PromotedColumns(ctx, scenario);
    ParametersOf(ctx.privacy, columns, |columns|) + ParametersOf(ctx.privacy, promoted, |promoted|) +
    if retry > 0 then [Parameter("retry", Decimal(retry), Plain, true)] else []
  }

  /** mapScenario with the UUID already chosen; None when strict attachment import fails. */
  function MapScenario(ctx: Context, specFile: string, item: SpecItem, scenario: Scenario, retry: int32, live: LiveInfo,
                       uuid: string, copyAttachments: bool, specTable: Option<Table>): Option<TestResult> {
    var sections := Sections(scenario.contexts, scenario.items, scenario.teardown, ctx.contextMode, ctx.teardownMode);
    match MapSections(StepConfig(ctx, copyAttachments), sections, live.range.start, live.range)
    case None => None
    case Some(steps) =>
      var canonical := CanonicalOf(ctx, specFile, item, scenario);
      var testCaseId := ctx.digest(canonical);
      Some(TestResult(uuid, canonical, testCaseId,
                      HistoryText(testCaseId, LogicalParameters(ctx, item, scenario, specTable)),
                      ScenarioStatus(scenario), ShownParameters(ctx, item, scenario, specTable, retry),
                      live.stream, live.runner, live.range.start, live.range.stop, steps))
  }

  /** The cells the row takes, then the promoted arguments, then the retry mark; each as its policy says. */
  predicate ListsParameters(privacy: Privacy, columns: seq<(string, string)>, promoted: seq<(string, string)>,
                            retry: int32, parameters: seq<Parameter>) {
    && |parameters| == |columns| + |promoted| + (if retry > 0 then 1 else 0)
    && (forall i: nat :: i < |columns| ==> parameters[i] == Shown(privacy, columns, i))
    && (forall j: nat :: j < |promoted| ==> parameters[|columns| + j] == Shown(privacy, promoted, j))
    && (retry > 0 ==> parameters[|parameters| - 1] == Parameter("retry", Decimal(retry), Plain, true))
  }

  ghost predicate ShowsRow(ctx: Context, row: Option<TableRow>, specTable: Option<Table>,
                           promoted: seq<(string, string)>, retry: int32, parameters: seq<Parameter>) {
    exists headers, cells, columns ::
      && TakesCells(row, specTable, headers, cells) && AreColumns(headers, cells, columns)
      && ListsParameters(ctx.privacy, columns, promoted, retry, parameters)
  }

  lemma ParametersShowRow(ctx: Context, item: SpecItem, scenario: Scenario, table: Option<Table>, retry: int32)
    ensures ShowsRow(ctx, RowOf(item), table, PromotedColumns(ctx, scenario), retry,
                     ShownParameters(ctx, item, scenario, table, retry))
  {
    var columns, promoted := TableColumns(RowOf(item), table), PromotedColumns(ctx, scenario);
    var headers, cells := TableColumnsExactly(RowOf(item), table);
    ParametersExactly(ctx.privacy, columns);
    ParametersExactly(ctx.privacy, promoted);
    ThreeParts(ctx.privacy, columns, promoted, retry, ParametersOf(ctx.privacy, columns, |columns|),
               ParametersOf(ctx.privacy, promoted, |promoted|));
  }

  lemma PartsOfThree<T>(a: seq<T>, b: seq<T>, c: seq<T>, whole: seq<T>)
    requires whole == a + b + c
    ensures |whole| == |a| + |b| + |c| && forall i :: 0 <= i < |a| ==> whole[i] == a[i]
    ensures forall j :: 0 <= j < |b| ==> whole[|a| + j] == b[j]
    ensures c != [] ==> whole[|whole| - 1] == c[|c| - 1]
  {
  }

  lemma ThreeParts(privacy: Privacy, columns: seq<(string, string)>, promoted: seq<(string, string)>, retry: int32,
                   a: seq<Parameter>, b: seq<Parameter>)
    requires |a| == |columns| && forall i: nat :: i < |columns| ==> a[i] == Shown(privacy, columns, i)
    requires |b| == |promoted| && forall i: nat :: i < |promoted| ==> b[i] == Shown(privacy, promoted, i)
    ensures ListsParameters(privacy, columns, promoted, retry,
                            a + b + if retry > 0 then [Parameter("retry", Decimal(retry), Plain, true)] else [])
  {
    var mark := if retry > 0 then [Parameter("retry", Decimal(retry), Plain, true)] else [];
    PartsOfThree(a, b, mark, a + b + mark);
  }

  /** Contexts, then the scenario's own steps, then teardown. */
  lemma PromotedInOrder(ctx: Context, scenario: Scenario)
    ensures PromotedColumns(ctx, scenario) ==
            Promoted(ctx.privacy.promote, ArgumentName,
                     Arguments(scenario.contexts) + Arguments(scenario.items) + Arguments(scenario.teardown))
  {
    ArgumentsConcat(scenario.contexts, scenario.items);
    ArgumentsConcat(scenario.contexts + scenario.items, scenario.teardown);
  }

  /** The row with this index in the table of the spec. */
  predicate IsSpecRow(item: SpecItem, table: Table, cells: seq<string>) {
    && RowOf(item).Some? && !RowOf(item).value.isScenarioTable && 0 <= RowOf(item).value.specRow < |table.rows|
    && table.rows[RowOf(item).value.specRow] == cells
  }

  /**
   * Two rows of the spec's table that differ in a column that is neither excluded nor private have different logical
   * parameters, whatever else the scenarios are.
   */
  lemma SpecRowsDiffer(ctx: Context, table: Table, item: SpecItem, scenario: Scenario, item': SpecItem,
                       scenario': Scenario, cells: seq<string>, cells': seq<string>, i: nat, name: string)
    requires IsSpecRow(item, table, cells) && IsSpecRow(item', table, cells')
    requires i < |cells| && i < |cells'| && cells[i] != cells'[i]
    requires name == FinalName(WithHeaders(table.headers, cells), i)
    requires !ctx.privacy.exclude(name) && !ctx.privacy.mask(name) && !ctx.privacy.hide(name)
    ensures LogicalParameters(ctx, item, scenario, Some(table)) != LogicalParameters(ctx, item', scenario', Some(table))
  {
    var a, b := WithHeaders(table.headers, cells), WithHeaders(table.headers, cells');
    var p, q := PromotedColumns(ctx, scenario), PromotedColumns(ctx, scenario');
    SpecRowColumns(item, table, cells);
    SpecRowColumns(item', table, cells');
    DifferenceShows(ctx.privacy, a, b, i, name, LogicalOf(ctx.privacy, p, |p|), LogicalOf(ctx.privacy, q, |q|));
  }

  lemma SpecRowColumns(item: SpecItem, table: Table, cells: seq<string>)
    requires IsSpecRow(item, table, cells)
    ensures TableColumns(RowOf(item), Some(table)) == WithHeaders(table.headers, cells)
  {
  }

  /** The parameters of a scenario as the source collects them: the row, the promoted arguments, the retry mark. */
  method RunScenarioParameters(ctx: Context, item: SpecItem, scenario: Scenario, retry: int32, specTable: Option<Table>)
    returns (parameters: seq<Parameter>, logical: seq<(string, string)>)
    ensures parameters == ShownParameters(ctx, item, scenario, specTable, retry)
    ensures logical == LogicalParameters(ctx, item, scenario, specTable)
    ensures ShowsRow(ctx, RowOf(item), specTable, PromotedColumns(ctx, scenario), retry, parameters)
  {
    ParametersShowRow(ctx, item, scenario, specTable, retry);
    parameters, logical := RunParameters(ctx.privacy, TableColumns(RowOf(item), specTable));
    var promoted, promotedLogical := RunParameters(ctx.privacy, PromotedColumns(ctx, scenario));
    parameters := parameters + promoted;
    logical := logical + promotedLogical;
    if retry > 0 {
      parameters := parameters + [Parameter("retry", Decimal(retry), Plain, true)];
    } else {
      parameters := parameters + [];
    }
  }

  /** mapScenario as the source runs it. */
  method RunMapScenario(ctx: Context, specFile: string, item: SpecItem, scenario: Scenario, retry: int32,
                        live: LiveInfo, uuid: string, copyAttachments: bool, specTable: Option<Table>)
    returns (result: Option<TestResult>)
    ensures result == MapScenario(ctx, specFile, item, scenario, retry, live, uuid, copyAttachments, specTable)
  {
    var canonical := CanonicalOf(ctx, specFile, item, scenario);
    var parameters, logical := RunScenarioParameters(ctx, item, scenario, retry, specTable);
    var testCaseId := ctx.digest(canonical);
    var history := RunHistoryText(testCaseId, logical);
    var sections := Sections(scenario.contexts, scenario.items, scenario.teardown, ctx.contextMode, ctx.teardownMode);
    var steps, ok := RunScenarioSteps(StepConfig(ctx, copyAttachments), sections, live.range);
    if !ok {
      return None;
    }
    return Some(TestResult(uuid, canonical, testCaseId, history, ScenarioStatus(scenario), parameters,
                           live.stream, live.runner, live.range.start, live.range.stop, steps));
  }

  /** Two reports of one scenario whose arguments and table cells differ only where policy hides it from history. */
  ghost predicate SameHistoryInput(ctx: Context, item: SpecItem, scenario: Scenario, table: Option<Table>,
                                   item': SpecItem, scenario': Scenario, table': Option<Table>) {
    && HistoryEquivalent(ctx.privacy, TableColumns(RowOf(item), table), TableColumns(RowOf(item'), table'))
    && HistoryEquivalent(ctx.privacy, PromotedColumns(ctx, scenario), PromotedColumns(ctx, scenario'))
  }

  lemma LogicalParametersAreStable(ctx: Context, item: SpecItem, scenario: Scenario, table: Option<Table>,
                                   item': SpecItem, scenario': Scenario, table': Option<Table>)
    requires SameHistoryInput(ctx, item, scenario, table, item', scenario', table')
    ensures LogicalParameters(ctx, item, scenario, table) == LogicalParameters(ctx, item', scenario', table')
  {
    var columns, columns' := TableColumns(RowOf(item), table), TableColumns(RowOf(item'), table');
    LogicalIgnoresPolicy(ctx.privacy, columns, columns', |columns|);
    var promoted, promoted' := PromotedColumns(ctx, scenario), PromotedColumns(ctx, scenario');
    LogicalIgnoresPolicy(ctx.privacy, promoted, promoted', |promoted|);
  }

  /** The text behind the history id of a scenario, from its identity and its parameters alone. */
  function HistoryOf(ctx: Context, specFile: string, item: SpecItem, scenario: Scenario,
                     specTable: Option<Table>): string {
    HistoryText(ctx.digest(CanonicalOf(ctx, specFile, item, scenario)),
                LogicalParameters(ctx, item, scenario, specTable))
  }

  lemma HistoryOfResult(ctx: Context, file: string, item: SpecItem, scenario: Scenario, retry: int32, live: LiveInfo,
                        uuid: string, copy: bool, table: Option<Table>, r: TestResult)
    requires MapScenario(ctx, file, item, scenario, retry, live, uuid, copy, table) == Some(r)
    ensures r.historyText == HistoryOf(ctx, file, item, scenario, table)
    ensures r.uuid == uuid && Range(r.start, r.stop) == live.range && r.stream == live.stream && r.runner == live.runner
  {
  }

  /** The other fields: identity, status, parameters and steps are those of the scenario, whatever attempt it is. */
  lemma FieldsOfResult(ctx: Context, file: string, item: SpecItem, scenario: Scenario, retry: int32, live: LiveInfo,
                       uuid: string, copy: bool, table: Option<Table>, r: TestResult)
    requires MapScenario(ctx, file, item, scenario, retry, live, uuid, copy, table) == Some(r)
    ensures r.fullName == CanonicalOf(ctx, file, item, scenario) && r.testCaseId == ctx.digest(r.fullName)
    ensures r.status == ScenarioStatus(scenario)
    ensures ShowsRow(ctx, RowOf(item), table, PromotedColumns(ctx, scenario), retry, r.parameters)
    ensures IsGrouped(Config(ctx.maxDepth, ctx.strict && ctx.attachments && copy),
                      [Section("Context", ctx.contextMode, scenario.contexts),
                       Section("Steps", GroupedSteps, scenario.items),
                       Section("Teardown", ctx.teardownMode, scenario.teardown)],
                      live.range.start, live.range, r.steps)
  {
    ParametersShowRow(ctx, item, scenario, table, retry);
    GroupsHug(StepConfig(ctx, copy),
              Sections(scenario.contexts, scenario.items, scenario.teardown, ctx.contextMode, ctx.teardownMode),
              live.range.start, live.range);
  }

  lemma HistoryOfIsStable(ctx: Context, file: string, item: SpecItem, scenario: Scenario, table: Option<Table>,
                          file': string, item': SpecItem, scenario': Scenario, table': Option<Table>)
    requires CanonicalOf(ctx, file, item, scenario) == CanonicalOf(ctx, file', item', scenario')
    requires SameHistoryInput(ctx, item, scenario, table, item', scenario', table')
    ensures HistoryOf(ctx, file, item, scenario, table) == HistoryOf(ctx, file', item', scenario', table')
  {
    LogicalParametersAreStable(ctx, item, scenario, table, item', scenario', table');
  }

  /** The history id survives retries, streams, runners, timing, UUIDs and values excluded from history. */
  lemma HistoryIsStable(ctx: Context, file: string, item: SpecItem, scenario: Scenario, table: Option<Table>,
                        retry: int32, live: LiveInfo, uuid: string, copy: bool, r: TestResult, file': string,
                        item': SpecItem, scenario': Scenario, table': Option<Table>, retry': int32, live': LiveInfo,
                        uuid': string, copy': bool, r': TestResult)
    requires MapScenario(ctx, file, item, scenario, retry, live, uuid, copy, table) == Some(r)
    requires MapScenario(ctx, file', item', scenario', retry', live', uuid', copy', table') == Some(r')
    requires CanonicalOf(ctx, file, item, scenario) == CanonicalOf(ctx, file', item', scenario')
    requires SameHistoryInput(ctx, item, scenario, table, item', scenario', table')
    ensures r.historyText == r'.historyText
  {
    HistoryOfResult(ctx, file, item, scenario, retry, live, uuid, copy, table, r);
    HistoryOfResult(ctx, file', item', scenario', retry', live', uuid', copy', table', r');
    HistoryOfIsStable(ctx, file, item, scenario, table, file', item', scenario', table');
  }

  /** The steps of a result tile its time range from its start on, whenever that range is usable. */
  lemma ResultStepsNest(ctx: Context, file: string, item: SpecItem, scenario: Scenario, retry: int32, live: LiveInfo,
                        uuid: string, copy: bool, table: Option<Table>)
    requires Bounded(live.range.start, live.range)
    ensures var r := MapScenario(ctx, file, item, scenario, retry, live, uuid, copy, table);
            r.Some? ==> Tiled(r.value.steps, r.value.start) && Within(r.value.steps, Range(r.value.start, r.value.stop))
  {
    ScenarioStepsNest(StepConfig(ctx, copy), scenario.contexts, scenario.items, scenario.teardown, ctx.contextMode,
                      ctx.teardownMode, live.range);
  }

  /** Some step at the top level of a section that is mapped cannot be imported. */
  predicate HasUnimportable(sections: seq<Section>) {
    exists section <- sections :: section.mode != Fixtures && exists item <- section.items :: !IsImportable(item)
  }

  lemma {:induction false} SectionsFailExactly(cfg: Config, sections: seq<Section>, cursor: int64, parent: Range)
    ensures MapSections(cfg, sections, cursor, parent).None? <==> cfg.strictImports && HasUnimportable(sections)
  {
    if sections != [] {
      assert sections == [sections[0]] + sections[1..];
      ErrorsAreTopLevel(cfg, sections[0].items, cursor, parent, 0);
      SectionsFailExactly(cfg, sections[1..], cursor, parent);
      SectionsFailExactly(cfg, sections[1..], MapItems(cfg, sections[0].items, cursor, parent, 0).cursor, parent);
    }
  }

  /**
   * A scenario is lost exactly in strict mode, with attachments to copy, for a step at the top level that cannot be
   * imported, outside of sections that become fixtures.
   */
  lemma ScenarioFailsExactly(ctx: Context, file: string, item: SpecItem, scenario: Scenario, retry: int32,
                             live: LiveInfo, uuid: string, copy: bool, table: Option<Table>)
    ensures MapScenario(ctx, file, item, scenario, retry, live, uuid, copy, table).None? <==>
            && ctx.strict && ctx.attachments && copy
            && HasUnimportable([Section("Context", ctx.contextMode, scenario.contexts),
                                Section("Steps", GroupedSteps, scenario.items),
                                Section("Teardown", ctx.teardownMode, scenario.teardown)])
  {
    SectionsFailExactly(StepConfig(ctx, copy),
                        Sections(scenario.contexts, scenario.items, scenario.teardown, ctx.contextMode,
                                 ctx.teardownMode), live.range.start, live.range);
  }

  /** No scenario is lost in best-effort mode, nor, in any mode, while its attachments are left alone. */
  lemma BestEffortMaps(ctx: Context, file: string, item: SpecItem, scenario: Scenario, retry: int32, live: LiveInfo,
                       uuid: string, copy: bool, table: Option<Table>)
    requires !ctx.strict || !ctx.attachments || !copy
    ensures MapScenario(ctx, file, item, scenario, retry, live, uuid, copy, table).Some?
  {
    ScenarioFailsExactly(ctx, file, item, scenario, retry, live, uuid, copy, table);
  }

  // ---------------------------------------------------------------- lifecycle events

  /** A scenario-end event; `item` is missing when any part of the protocol message around it is. */
  datatype ScenarioEnd = ScenarioEnd(specFile: string, item: Option<SpecItem>, currentRetry: Option<int32>,
                                     timestamp: Option<Instant>, duration: int64, stream: int32, runner: int32)

  function RetryOf(event: ScenarioEnd): int32 {
    if event.currentRetry.Some? then event.currentRetry.value else 0
  }

  /**
   * MapLiveScenario: prompt, without attachments and without the table of the spec. It fails only for lack of a
   * scenario or of a UUID; the attempt key and the history text are those of the event's own report.
   */
  method MapLiveScenario(ctx: Context, event: ScenarioEnd, existingUuid: string, newUuid: Option<string>, now: Instant)
    returns (artifact: Option<Artifact>)
    ensures artifact.Some? <==>
      event.item.Some? && ScenarioOf(event.item.value).Some? && (existingUuid != "" || newUuid.Some?)
    ensures artifact.Some? ==>
      var item, scenario, r := event.item.value, ScenarioOf(event.item.value).value, artifact.value.result;
      var retry := match event.currentRetry case Some(n) => n case None => 0;
      && artifact.value.key == KeyOf(ctx, event.specFile, item, scenario, retry)
      && r.uuid == (if existingUuid != "" then existingUuid else newUuid.value)
      && Range(r.start, r.stop) == Resolve(event.timestamp, event.duration, now)
      && r.historyText == HistoryOf(ctx, event.specFile, item, scenario, None)
      && r.stream == event.stream && r.runner == event.runner && r.status == ScenarioStatus(scenario)
      && r.fullName == CanonicalOf(ctx, event.specFile, item, scenario)
      && ShowsRow(ctx, RowOf(item), None, PromotedColumns(ctx, scenario), retry, r.parameters)
  {
    if event.item.None? || ScenarioOf(event.item.value).None? {
      return None;
    }
    var item, scenario := event.item.value, ScenarioOf(event.item.value).value;
    var retry := RetryOf(event);
    var live := LiveInfo(Resolve(event.timestamp, event.duration, now), event.stream, event.runner, retry);
    var uuid := existingUuid;
    if uuid == "" {
      if newUuid.None? {
        return None;
      }
      uuid := newUuid.value;
    }
    BestEffortMaps(ctx, event.specFile, item, scenario, retry, live, uuid, false, None);
    var result := RunMapScenario(ctx, event.specFile, item, scenario, retry, live, uuid, false, None);
    HistoryOfResult(ctx, event.specFile, item, scenario, retry, live, uuid, false, None, result.value);
    FieldsOfResult(ctx, event.specFile, item, scenario, retry, live, uuid, false, None, result.value);
    return Some(Artifact(KeyOf(ctx, event.specFile, item, scenario, retry), result.value));
  }

  /** The row comes from the table of the spec, which a lifecycle event does not carry. */
  predicate IsSpecTableRow(item: SpecItem) {
    RowOf(item).Some? && !RowOf(item).value.isScenarioTable
  }

  lemma EventColumns(item: SpecItem, table: Option<Table>)
    ensures TableColumns(RowOf(item), None) == if IsSpecTableRow(item) then [] else TableColumns(RowOf(item), table)
  {
  }

  lemma LongerHistory(testCaseId: string, extra: seq<(string, string)>, shared: seq<(string, string)>)
    ensures HistoryText(testCaseId, [] + shared) == HistoryText(testCaseId, extra + shared) <==> extra == []
  {
    ParameterTextGrows(extra, shared);
    assert [] + shared == shared;
  }

  /**
   * An attempt has the same history text live and in the final suite exactly when its row is not from the spec's
   * table, or every column of that row is excluded from history.
   */
  lemma LiveHistoryAgreesExactly(ctx: Context, file: string, item: SpecItem, scenario: Scenario, table: Option<Table>)
    ensures var columns := TableColumns(RowOf(item), table);
            HistoryOf(ctx, file, item, scenario, None) == HistoryOf(ctx, file, item, scenario, table) <==>
            (IsSpecTableRow(item) ==> forall i: nat :: i < |columns| ==> ctx.privacy.exclude(FinalName(columns, i)))
  {
    var columns, promoted := TableColumns(RowOf(item), table), PromotedColumns(ctx, scenario);
    var extra, shared := LogicalOf(ctx.privacy, columns, |columns|), LogicalOf(ctx.privacy, promoted, |promoted|);
    var testCaseId := ctx.digest(CanonicalOf(ctx, file, item, scenario));
    EventColumns(item, table);
    if IsSpecTableRow(item) {
      NothingLogicalExactly(ctx.privacy, columns, |columns|);
      LongerHistory(testCaseId, extra, shared);
      assert HistoryOf(ctx, file, item, scenario, None) == HistoryText(testCaseId, [] + shared);
    }
  }
}
