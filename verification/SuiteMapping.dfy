/** internal/mapping/mapping.go, MapSuite as the source runs it, proved against the plan of the suite. */
module SuiteMapping {
  import opened Int64
  import opened Wrappers
  import opened Text
  import opened Timing
  import opened Status
  import opened Identity
  import opened Keys
  import opened StepTree
  import Shape = StepTreeShape
  import opened StepTreeTiming
  import opened ScenarioMapping
  import opened Sorting
  import opened Suite

  // ---------------------------------------------------------------- UUIDs

  /** The UUID generator: the n-th draw, None when it fails. */
  type Supply = nat -> Option<string>

  /** Draws are new: non-empty, pairwise different, and none of them in use. */
  ghost predicate Fresh(supply: Supply, used: set<string>) {
    && (forall n: nat :: supply(n).Some? ==> supply(n).value != "" && supply(n).value !in used)
    && (forall m: nat, n: nat :: m < n && supply(m).Some? && supply(n).Some? ==> supply(m).value != supply(n).value)
  }

  ghost predicate Reliable(supply: Supply) {
    forall n: nat :: supply(n).Some?
  }

  ghost function Drawn(supply: Supply, n: nat): set<string> {
    set k: nat | k < n && supply(k).Some? :: supply(k).value
  }

  lemma DrawIsNew(supply: Supply, used: set<string>, n: nat)
    requires Fresh(supply, used) && supply(n).Some?
    ensures supply(n).value !in Drawn(supply, n) && Drawn(supply, n + 1) == Drawn(supply, n) + {supply(n).value}
  {
  }

  // ---------------------------------------------------------------- from plan to results

  function SyntheticResult(ctx: Context, key: string, status: Status, at: int64, uuid: string): TestResult {
    var canonical := Base(ctx.root) + "::[synthetic]::" + key;
    var testCaseId := ctx.digest(canonical);
    TestResult(uuid, canonical, testCaseId, HistoryText(testCaseId, []), status, [], 0, 0, at, at, [])
  }

  /** The result a plan entry becomes once it has its UUID; None when strict attachment import fails. */
  type Outcome = (Planned, string) -> Option<TestResult>

  function OutcomeIn(ctx: Context): Outcome {
    (p: Planned, uuid: string) => match p
      case Synthetic(key, status, at) => Some(SyntheticResult(ctx, key, status, at, uuid))
      case Attempt(_, file, item, scenario, retry, live, table) => MapScenario(ctx, file, item, scenario, retry, live,
                                                                               uuid, true, table)
  }

  /** What the loops need of mapping one entry: the UUID is kept, and only strict mode loses attempts. */
  ghost predicate Maps(outcome: Outcome, strict: bool) {
    && (forall p: Planned, uuid: string :: outcome(p, uuid).Some? ==> outcome(p, uuid).value.uuid == uuid)
    && (forall p: Planned, uuid: string :: p.Synthetic? || !strict ==> outcome(p, uuid).Some?)
    && (forall p: Planned, uuid: string, other: string {:trigger outcome(p, uuid), outcome(p, other)} ::
          outcome(p, uuid).Some? ==> outcome(p, other).Some?)
  }

  lemma OutcomeInMaps(ctx: Context)
    ensures Maps(OutcomeIn(ctx), ctx.strict)
  {
    forall p: Planned, uuid: string | p.Attempt? && !ctx.strict ensures OutcomeIn(ctx)(p, uuid).Some? {
      BestEffortMaps(ctx, p.file, p.item, p.scenario, p.retry, p.live, uuid, true, p.table);
    }
    forall p: Planned, uuid: string, other: string | OutcomeIn(ctx)(p, uuid).Some?
      ensures OutcomeIn(ctx)(p, other).Some?
    {
      if p.Attempt? {
        ScenarioFailsExactly(ctx, p.file, p.item, p.scenario, p.retry, p.live, uuid, true, p.table);
        ScenarioFailsExactly(ctx, p.file, p.item, p.scenario, p.retry, p.live, other, true, p.table);
      }
    }
  }

  /** Whether the entry finds a UUID registered for its key. Synthetic entries never look. */
  predicate Reuses(existing: map<string, string>, p: Planned) {
    p.Attempt? && p.key in existing && existing[p.key] != ""
  }

  predicate Realizes(outcome: Outcome, existing: map<string, string>, a: Artifact, p: Planned) {
    && a.key == p.key
    && outcome(p, a.result.uuid) == Some(a.result)
    && (Reuses(existing, p) ==> a.result.uuid == existing[p.key])
  }

  /** The results realise the plan in order; UUIDs that are not reused come from different draws. */
  ghost predicate Describes(outcome: Outcome, existing: map<string, string>, drawn: set<string>, plan: seq<Planned>,
                            results: seq<Artifact>) {
    && |results| == |plan|
    && (forall i :: 0 <= i < |plan| ==> Realizes(outcome, existing, results[i], plan[i]))
    && (forall i :: 0 <= i < |plan| && !Reuses(existing, plan[i]) ==> results[i].result.uuid in drawn)
    && (forall i, j :: 0 <= i < j < |plan| && !Reuses(existing, plan[i]) && !Reuses(existing, plan[j]) ==>
          results[i].result.uuid != results[j].result.uuid)
  }

  lemma DescribesMore(outcome: Outcome, existing: map<string, string>, drawn: set<string>, more: set<string>,
                      plan: seq<Planned>, results: seq<Artifact>, p: Planned, a: Artifact)
    requires Describes(outcome, existing, drawn, plan, results) && Realizes(outcome, existing, a, p)
    requires drawn <= more && (!Reuses(existing, p) ==> a.result.uuid in more - drawn)
    ensures Describes(outcome, existing, more, plan + [p], results + [a])
  {
  }

  // ---------------------------------------------------------------- containers

  function Uuids(results: seq<Artifact>): seq<string> {
    if results == [] then [] else [results[0].result.uuid] + Uuids(results[1..])
  }

  /** The UUIDs of the results that are scenario attempts. */
  function AttemptUuids(plan: seq<Planned>, results: seq<Artifact>): seq<string>
    requires |plan| == |results|
  {
    if plan == [] then []
    else (if plan[0].Attempt? then [results[0].result.uuid] else []) + AttemptUuids(plan[1..], results[1..])
  }

  /** The children of all containers of one scope, in order. */
  function Children(containers: seq<Container>, scope: Scope): seq<string> {
    if containers == [] then []
    else (if containers[0].scope == scope then containers[0].children else []) + Children(containers[1..], scope)
  }

  lemma {:induction false} UuidsConcat(a: seq<Artifact>, b: seq<Artifact>)
    ensures Uuids(a + b) == Uuids(a) + Uuids(b)
  {
    if a == [] {
      assert a + b == b;
    } else {
      assert (a + b)[1..] == a[1..] + b;
      UuidsConcat(a[1..], b);
    }
  }

  lemma Associates<T>(a: seq<T>, b: seq<T>, c: seq<T>)
    ensures a + (b + c) == (a + b) + c
  {
  }

  lemma FirstOfTwo<T>(a: seq<T>, b: seq<T>)
    requires a != []
    ensures (a + b)[0] == a[0] && (a + b)[1..] == a[1..] + b
  {
  }

  lemma {:induction false} AttemptUuidsConcat(plan: seq<Planned>, results: seq<Artifact>, plan': seq<Planned>,
                                              results': seq<Artifact>)
    requires |plan| == |results| && |plan'| == |results'|
    ensures AttemptUuids(plan + plan', results + results') ==
      AttemptUuids(plan, results) + AttemptUuids(plan', results')
  {
    if plan == [] {
      assert plan + plan' == plan' && results + results' == results';
    } else {
      FirstOfTwo(plan, plan');
      FirstOfTwo(results, results');
      AttemptUuidsConcat(plan[1..], results[1..], plan', results');
      Associates(if plan[0].Attempt? then [results[0].result.uuid] else [], AttemptUuids(plan[1..], results[1..]),
                 AttemptUuids(plan', results'));
    }
  }

  lemma {:induction false} ChildrenConcat(a: seq<Container>, b: seq<Container>, scope: Scope)
    ensures Children(a + b, scope) == Children(a, scope) + Children(b, scope)
  {
    if a == [] {
      assert a + b == b;
    } else {
      assert (a + b)[1..] == a[1..] + b;
      ChildrenConcat(a[1..], b, scope);
    }
  }

  lemma ChildrenAppend(containers: seq<Container>, c: Container, scope: Scope)
    ensures Children(containers + [c], scope) ==
            Children(containers, scope) + if c.scope == scope then c.children else []
  {
    ChildrenConcat(containers, [c], scope);
    assert [c][1..] == [];
  }

  /** Every container has children; a scenario container has one. */
  predicate IsContainer(c: Container) {
    |c.children| >= 1 && (c.scope == ScenarioHooks ==> |c.children| == 1)
  }

  /**
   * Scenario containers list attempts, and so do spec containers; the `pending` children of the current spec are
   * attempts as well. In a `whole` mapping they list all of them, each once and in order.
   */
  ghost predicate Contained(whole: bool, plan: seq<Planned>, results: seq<Artifact>, containers: seq<Container>,
                            pending: seq<string>)
    requires |plan| == |results|
  {
    && (forall c <- containers :: IsContainer(c) && c.scope != SuiteHooks)
    && (forall u <- Children(containers, ScenarioHooks) :: u in AttemptUuids(plan, results))
    && (forall u <- Children(containers, SpecHooks) + pending :: u in AttemptUuids(plan, results))
    && (whole ==> Children(containers, ScenarioHooks) == AttemptUuids(plan, results))
    && (whole ==> Children(containers, SpecHooks) + pending == AttemptUuids(plan, results))
  }

  /** Strict mode turns a failing import of hook attachments into an error. */
  predicate HooksFail(ctx: Context, importable: bool) {
    ctx.strict && ctx.attachments && !importable
  }

  /** In fixture mode the context and teardown steps are mapped for the container, attachments included. */
  predicate FixtureStepsFail(ctx: Context, scenario: Scenario, range: Range) {
    var cfg := StepConfig(ctx, true);
    || (ctx.contextMode == Fixtures && !MapItems(cfg, scenario.contexts, range.start, range, 0).ok)
    || (ctx.teardownMode == Fixtures && !MapItems(cfg, scenario.teardown, range.start, range, 0).ok)
  }

  /** Everything strict mode insists on importing for this entry can be imported. */
  predicate IsEntryImportable(ctx: Context, outcome: Outcome, p: Planned) {
    p.Attempt? ==>
      && outcome(p, "").Some?
      && (ctx.strict && ctx.attachments ==>
            && p.scenario.hooksImportable
            && (ctx.contextMode == Fixtures ==> forall item <- p.scenario.contexts :: Shape.IsImportable(item))
            && (ctx.teardownMode == Fixtures ==> forall item <- p.scenario.teardown :: Shape.IsImportable(item)))
  }

  /** Fixture steps fail exactly for a step at their top level that cannot be imported. */
  lemma FixtureStepsFailExactly(ctx: Context, scenario: Scenario, range: Range)
    ensures FixtureStepsFail(ctx, scenario, range) <==>
            && ctx.strict && ctx.attachments
            && ((ctx.contextMode == Fixtures && exists item <- scenario.contexts :: !Shape.IsImportable(item)) ||
                (ctx.teardownMode == Fixtures && exists item <- scenario.teardown :: !Shape.IsImportable(item)))
  {
    Shape.ErrorsAreTopLevel(StepConfig(ctx, true), scenario.contexts, range.start, range, 0);
    Shape.ErrorsAreTopLevel(StepConfig(ctx, true), scenario.teardown, range.start, range, 0);
  }

  predicate AreImportable(ctx: Context, outcome: Outcome, plan: seq<Planned>) {
    forall p <- plan :: IsEntryImportable(ctx, outcome, p)
  }

  function SpecOf(specResult: Option<SpecResult>): Option<Spec> {
    if specResult.Some? then specResult.value.spec else None
  }

  /** And for a specification, given its part of the plan. */
  predicate IsSpecImportable(ctx: Context, outcome: Outcome, spec: Option<Spec>, planned: seq<Planned>) {
    && AreImportable(ctx, outcome, planned)
    && (spec.Some? && (exists p <- planned :: p.Attempt?) && ctx.strict && ctx.attachments ==>
          spec.value.hooksImportable)
  }

  predicate IsContentImportable(ctx: Context, outcome: Outcome, spec: Spec, attempts: seq<Planned>) {
    AreImportable(ctx, outcome, attempts) &&
    (attempts != [] && ctx.strict && ctx.attachments ==> spec.hooksImportable)
  }

  /** And for the whole suite. */
  ghost predicate IsSuiteImportable(ctx: Context, outcome: Outcome, suite: SuiteResult, planner: SpecPlanner) {
    && (forall k: nat :: k < |suite.specs| ==>
          IsSpecImportable(ctx, outcome, SpecOf(suite.specs[k]), planner(suite.specs[k], k)))
    && (ctx.strict && ctx.attachments ==> suite.hooksImportable)
  }

  // ---------------------------------------------------------------- order

  predicate Earlier(a: Artifact, b: Artifact) {
    if a.result.start == b.result.start then StringLess(a.key, b.key) else a.result.start < b.result.start
  }

  predicate SmallerUuid(a: Container, b: Container) {
    StringLess(a.uuid, b.uuid)
  }

  lemma SuiteOrders()
    ensures StrictWeakOrder(Earlier) && StrictWeakOrder(SmallerUuid)
  {
    StringLessIsOrder();
    assert StrictWeakOrder(StringLess);
    forall a: Artifact, b: Artifact, c: Artifact | Earlier(a, c) ensures Earlier(a, b) || Earlier(b, c) {
      assert StringLess(a.key, c.key) ==> StringLess(a.key, b.key) || StringLess(b.key, c.key);
    }
    forall a: Container, b: Container, c: Container | SmallerUuid(a, c) ensures SmallerUuid(a, b) || SmallerUuid(b, c) {
      assert StringLess(a.uuid, c.uuid) ==> StringLess(a.uuid, b.uuid) || StringLess(b.uuid, c.uuid);
    }
  }

  /** By start, then by key. */
  predicate IsInTimeOrder(results: seq<Artifact>) {
    forall i, j :: 0 <= i < j < |results| ==>
      || results[i].result.start < results[j].result.start
      || (results[i].result.start == results[j].result.start && !StringLess(results[j].key, results[i].key))
  }

  predicate IsInUuidOrder(containers: seq<Container>) {
    forall i, j :: 0 <= i < j < |containers| ==> !StringLess(containers[j].uuid, containers[i].uuid)
  }

  ghost function StartingWith(results: seq<Artifact>, start: int64, key: string): seq<Artifact> {
    Select((a: Artifact) => a.result.start == start && a.key == key, results)
  }

  /** Results with the same start and the same key stay in the order in which they were emitted. */
  ghost predicate KeepsTies(emitted: seq<Artifact>, results: seq<Artifact>) {
    forall start, key :: StartingWith(results, start, key) == StartingWith(emitted, start, key)
  }

  lemma SortKeepsTies(results: seq<Artifact>)
    ensures KeepsTies(results, StableSort(Earlier, results))
  {
    StringLessIsOrder();
    forall start, key
      ensures StartingWith(StableSort(Earlier, results), start, key) == StartingWith(results, start, key)
    {
      StableSortKeepsTies(Earlier, (a: Artifact) => a.result.start == start && a.key == key, results);
    }
  }

  lemma {:induction false} InsertKeepsUuids(a: Artifact, results: seq<Artifact>)
    ensures multiset(Uuids(Insert(Earlier, a, results))) == multiset{a.result.uuid} + multiset(Uuids(results))
  {
    if results != [] {
      InsertKeepsUuids(a, results[1..]);
      UuidsConcat([a], results);
      UuidsConcat([results[0]], Insert(Earlier, a, results[1..]));
    }
  }

  lemma {:induction false} SortKeepsUuids(results: seq<Artifact>)
    ensures multiset(Uuids(StableSort(Earlier, results))) == multiset(Uuids(results))
  {
    if results != [] {
      SortKeepsUuids(results[1..]);
      InsertKeepsUuids(results[0], StableSort(Earlier, results[1..]));
    }
  }

  lemma {:induction false} InsertKeepsChildren(c: Container, containers: seq<Container>, scope: Scope)
    ensures multiset(Children(Insert(SmallerUuid, c, containers), scope)) ==
            multiset(if c.scope == scope then c.children else []) + multiset(Children(containers, scope))
  {
    if containers != [] {
      InsertKeepsChildren(c, containers[1..], scope);
      ChildrenConcat([c], containers, scope);
      ChildrenConcat([containers[0]], Insert(SmallerUuid, c, containers[1..]), scope);
    }
  }

  lemma {:induction false} SortKeepsChildren(containers: seq<Container>, scope: Scope)
    ensures multiset(Children(StableSort(SmallerUuid, containers), scope)) == multiset(Children(containers, scope))
  {
    if containers != [] {
      SortKeepsChildren(containers[1..], scope);
      InsertKeepsChildren(containers[0], StableSort(SmallerUuid, containers[1..]), scope);
    }
  }

  // ---------------------------------------------------------------- the loops of the source

  /** The lists the loops append to, and the number of UUIDs drawn so far. */
  datatype Progress = Progress(results: seq<Artifact>, containers: seq<Container>, draws: nat)

  ghost predicate Good(outcome: Outcome, existing: map<string, string>, supply: Supply, whole: bool, plan: seq<Planned>,
                       p: Progress, pending: seq<string>) {
    && Describes(outcome, existing, Drawn(supply, p.draws), plan, p.results)
    && Contained(whole, plan, p.results, p.containers, pending)
  }

  /** No UUID is missing: the generator never fails, or a failure is an error. */
  ghost predicate Whole(ctx: Context, supply: Supply) {
    Reliable(supply) || ctx.strict
  }

  /** The plan without some of its attempts: no UUID was registered for them, and the generator had none. */
  predicate IsKept(existing: map<string, string>, kept: seq<Planned>, plan: seq<Planned>) {
    && multiset(kept) <= multiset(plan)
    && forall p <- multiset(plan) - multiset(kept) :: p.Attempt? && !Reuses(existing, p)
  }

  ghost predicate Realized(outcome: Outcome, existing: map<string, string>, supply: Supply, whole: bool,
                           plan: seq<Planned>, kept: seq<Planned>, p: Progress, pending: seq<string>) {
    && IsKept(existing, kept, plan) && (whole ==> kept == plan)
    && Good(outcome, existing, supply, whole, kept, p, pending)
  }

  /** The progress realises the plan up to attempts that found no UUID; a whole mapping realises all of it. */
  ghost predicate Sound(outcome: Outcome, existing: map<string, string>, supply: Supply, whole: bool,
                        plan: seq<Planned>, p: Progress, pending: seq<string>) {
    exists kept :: Realized(outcome, existing, supply, whole, plan, kept, p, pending)
  }

  lemma KeptMore(existing: map<string, string>, kept: seq<Planned>, plan: seq<Planned>, p: Planned)
    requires IsKept(existing, kept, plan)
    ensures IsKept(existing, kept + [p], plan + [p])
    ensures p.Attempt? && !Reuses(existing, p) ==> IsKept(existing, kept, plan + [p])
  {
    assert multiset(plan + [p]) - multiset(kept + [p]) == multiset(plan) - multiset(kept);
    assert multiset(plan + [p]) - multiset(kept) == (multiset(plan) - multiset(kept)) + multiset{p};
  }

  lemma GoodResult(outcome: Outcome, existing: map<string, string>, supply: Supply, used: set<string>, whole: bool,
                   plan: seq<Planned>, p: Progress, pending: seq<string>, planned: Planned, result: TestResult,
                   draws: nat)
    requires Fresh(supply, used) && Good(outcome, existing, supply, whole, plan, p, pending)
    requires outcome(planned, result.uuid) == Some(result)
    requires if Reuses(existing, planned) then draws == p.draws && result.uuid == existing[planned.key]
             else draws == p.draws + 1 && supply(p.draws) == Some(result.uuid)
    ensures var p' := Progress(p.results + [Artifact(planned.key, result)], p.containers, draws);
            var attempts := if planned.Attempt? then [result.uuid] else [];
            && Describes(outcome, existing, Drawn(supply, draws), plan + [planned], p'.results)
            && (forall c <- p.containers :: IsContainer(c) && c.scope != SuiteHooks)
            && AttemptUuids(plan + [planned], p'.results) == AttemptUuids(plan, p.results) + attempts
  {
    var artifact := Artifact(planned.key, result);
    if !Reuses(existing, planned) {
      DrawIsNew(supply, used, p.draws);
    }
    DescribesMore(outcome, existing, Drawn(supply, p.draws), Drawn(supply, draws), plan, p.results, planned, artifact);
    AttemptUuidsConcat(plan, p.results, [planned], [artifact]);
  }

  lemma GoodSynthetic(outcome: Outcome, existing: map<string, string>, supply: Supply, used: set<string>, whole: bool,
                      plan: seq<Planned>, p: Progress, planned: Planned, result: TestResult)
    requires Fresh(supply, used) && Good(outcome, existing, supply, whole, plan, p, []) && planned.Synthetic?
    requires outcome(planned, result.uuid) == Some(result) && supply(p.draws) == Some(result.uuid)
    ensures Good(outcome, existing, supply, whole, plan + [planned],
                 Progress(p.results + [Artifact(planned.key, result)], p.containers, p.draws + 1), [])
  {
    GoodResult(outcome, existing, supply, used, whole, plan, p, [], planned, result, p.draws + 1);
    assert AttemptUuids(plan, p.results) + [] == AttemptUuids(plan, p.results);
  }

  lemma SoundSynthetic(outcome: Outcome, existing: map<string, string>, supply: Supply, used: set<string>, whole: bool,
                       plan: seq<Planned>, p: Progress, planned: Planned, result: TestResult)
    requires Fresh(supply, used) && Sound(outcome, existing, supply, whole, plan, p, []) && planned.Synthetic?
    requires outcome(planned, result.uuid) == Some(result) && supply(p.draws) == Some(result.uuid)
    ensures Sound(outcome, existing, supply, whole, plan + [planned],
                  Progress(p.results + [Artifact(planned.key, result)], p.containers, p.draws + 1), [])
  {
    var kept :| Realized(outcome, existing, supply, whole, plan, kept, p, []);
    GoodSynthetic(outcome, existing, supply, used, whole, kept, p, planned, result);
    MoreRealized(outcome, existing, supply, whole, plan, kept, planned,
                 Progress(p.results + [Artifact(planned.key, result)], p.containers, p.draws + 1), []);
  }

  lemma MoreRealized(outcome: Outcome, existing: map<string, string>, supply: Supply, whole: bool, plan: seq<Planned>,
                     kept: seq<Planned>, planned: Planned, p: Progress, pending: seq<string>)
    requires IsKept(existing, kept, plan) && (whole ==> kept == plan)
    requires Good(outcome, existing, supply, whole, kept + [planned], p, pending)
    ensures Sound(outcome, existing, supply, whole, plan + [planned], p, pending)
  {
    KeptMore(existing, kept, plan, planned);
    assert Realized(outcome, existing, supply, whole, plan + [planned], kept + [planned], p, pending);
  }

  lemma MoreDraws(outcome: Outcome, existing: map<string, string>, supply: Supply, plan: seq<Planned>,
                  results: seq<Artifact>, n: nat, m: nat)
    requires n <= m && Describes(outcome, existing, Drawn(supply, n), plan, results)
    ensures Describes(outcome, existing, Drawn(supply, m), plan, results)
  {
    assert Drawn(supply, n) <= Drawn(supply, m);
  }

  lemma AttemptContained(whole: bool, plan: seq<Planned>, results: seq<Artifact>, plan': seq<Planned>,
                         results': seq<Artifact>, containers: seq<Container>, pending: seq<string>,
                         container: Container, uuid: string)
    requires |plan| == |results| && |plan'| == |results'| && Contained(whole, plan, results, containers, pending)
    requires AttemptUuids(plan', results') == AttemptUuids(plan, results) + [uuid]
    requires container.scope == ScenarioHooks && container.children == [uuid]
    ensures Contained(whole, plan', results', containers + [container], pending + [uuid])
  {
    ChildrenAppend(containers, container, ScenarioHooks);
    ChildrenAppend(containers, container, SpecHooks);
    Associates(Children(containers, SpecHooks), pending, [uuid]);
    assert Children(containers, SpecHooks) + [] == Children(containers, SpecHooks);
  }

  lemma AttemptUncontained(plan: seq<Planned>, results: seq<Artifact>, plan': seq<Planned>, results': seq<Artifact>,
                           containers: seq<Container>, pending: seq<string>, uuid: string)
    requires |plan| == |results| && |plan'| == |results'| && Contained(false, plan, results, containers, pending)
    requires AttemptUuids(plan', results') == AttemptUuids(plan, results) + [uuid]
    ensures Contained(false, plan', results', containers, pending + [uuid])
  {
    Associates(Children(containers, SpecHooks), pending, [uuid]);
  }

  lemma GoodAttempt(outcome: Outcome, existing: map<string, string>, supply: Supply, used: set<string>, whole: bool,
                    plan: seq<Planned>, p: Progress, pending: seq<string>, planned: Planned, result: TestResult,
                    draws: nat, container: Container)
    requires Fresh(supply, used) && Good(outcome, existing, supply, whole, plan, p, pending) && planned.Attempt?
    requires outcome(planned, result.uuid) == Some(result)
    requires if Reuses(existing, planned) then draws == p.draws && result.uuid == existing[planned.key]
             else draws == p.draws + 1 && supply(p.draws) == Some(result.uuid)
    requires container.scope == ScenarioHooks && container.children == [result.uuid]
    ensures Good(outcome, existing, supply, whole, plan + [planned],
                 Progress(p.results + [Artifact(planned.key, result)], p.containers + [container], draws + 1),
                 pending + [result.uuid])
  {
    var results := p.results + [Artifact(planned.key, result)];
    GoodResult(outcome, existing, supply, used, whole, plan, p, pending, planned, result, draws);
    MoreDraws(outcome, existing, supply, plan + [planned], results, draws, draws + 1);
    AttemptContained(whole, plan, p.results, plan + [planned], results, p.containers, pending, container, result.uuid);
  }

  lemma GoodUncontained(outcome: Outcome, existing: map<string, string>, supply: Supply, used: set<string>,
                        plan: seq<Planned>, p: Progress, pending: seq<string>, planned: Planned, result: TestResult,
                        draws: nat)
    requires Fresh(supply, used) && Good(outcome, existing, supply, false, plan, p, pending) && planned.Attempt?
    requires outcome(planned, result.uuid) == Some(result)
    requires if Reuses(existing, planned) then draws == p.draws && result.uuid == existing[planned.key]
             else draws == p.draws + 1 && supply(p.draws) == Some(result.uuid)
    ensures Good(outcome, existing, supply, false, plan + [planned],
                 Progress(p.results + [Artifact(planned.key, result)], p.containers, draws + 1),
                 pending + [result.uuid])
  {
    var results := p.results + [Artifact(planned.key, result)];
    GoodResult(outcome, existing, supply, used, false, plan, p, pending, planned, result, draws);
    MoreDraws(outcome, existing, supply, plan + [planned], results, draws, draws + 1);
    AttemptUncontained(plan, p.results, plan + [planned], results, p.containers, pending, result.uuid);
  }

  lemma SoundAttempt(outcome: Outcome, existing: map<string, string>, supply: Supply, used: set<string>, whole: bool,
                     plan: seq<Planned>, p: Progress, pending: seq<string>, planned: Planned, result: TestResult,
                     draws: nat, container: Container)
    requires Fresh(supply, used) && Sound(outcome, existing, supply, whole, plan, p, pending) && planned.Attempt?
    requires outcome(planned, result.uuid) == Some(result)
    requires if Reuses(existing, planned) then draws == p.draws && result.uuid == existing[planned.key]
             else draws == p.draws + 1 && supply(p.draws) == Some(result.uuid)
    requires container.scope == ScenarioHooks && container.children == [result.uuid]
    ensures Sound(outcome, existing, supply, whole, plan + [planned],
                  Progress(p.results + [Artifact(planned.key, result)], p.containers + [container], draws + 1),
                  pending + [result.uuid])
  {
    var kept :| Realized(outcome, existing, supply, whole, plan, kept, p, pending);
    GoodAttempt(outcome, existing, supply, used, whole, kept, p, pending, planned, result, draws, container);
    MoreRealized(outcome, existing, supply, whole, plan, kept, planned,
                 Progress(p.results + [Artifact(planned.key, result)], p.containers + [container], draws + 1),
                 pending + [result.uuid]);
  }

  lemma SoundUncontained(outcome: Outcome, existing: map<string, string>, supply: Supply, used: set<string>,
                         plan: seq<Planned>, p: Progress, pending: seq<string>, planned: Planned, result: TestResult,
                         draws: nat)
    requires Fresh(supply, used) && Sound(outcome, existing, supply, false, plan, p, pending) && planned.Attempt?
    requires outcome(planned, result.uuid) == Some(result)
    requires if Reuses(existing, planned) then draws == p.draws && result.uuid == existing[planned.key]
             else draws == p.draws + 1 && supply(p.draws) == Some(result.uuid)
    ensures Sound(outcome, existing, supply, false, plan + [planned],
                  Progress(p.results + [Artifact(planned.key, result)], p.containers, draws + 1),
                  pending + [result.uuid])
  {
    var kept :| Realized(outcome, existing, supply, false, plan, kept, p, pending);
    GoodUncontained(outcome, existing, supply, used, kept, p, pending, planned, result, draws);
    MoreRealized(outcome, existing, supply, false, plan, kept, planned,
                 Progress(p.results + [Artifact(planned.key, result)], p.containers, draws + 1),
                 pending + [result.uuid]);
  }

  lemma SoundWithoutAttempt(outcome: Outcome, existing: map<string, string>, supply: Supply, plan: seq<Planned>,
                            p: Progress, pending: seq<string>, planned: Planned, draws: nat)
    requires Sound(outcome, existing, supply, false, plan, p, pending) && planned.Attempt? && !Reuses(existing, planned)
    requires p.draws <= draws
    ensures Sound(outcome, existing, supply, false, plan + [planned], p.(draws := draws), pending)
  {
    var kept :| Realized(outcome, existing, supply, false, plan, kept, p, pending);
    KeptMore(existing, kept, plan, planned);
    MoreDraws(outcome, existing, supply, kept, p.results, p.draws, draws);
    assert Realized(outcome, existing, supply, false, plan + [planned], kept, p.(draws := draws), pending);
  }

  /** One container more, of these children and this range. */
  predicate AddsContainer(before: seq<Container>, after: seq<Container>, scope: Scope, children: seq<string>,
                          range: Range) {
    && |after| == |before| + 1 && after[..|before|] == before
    && var c := after[|before|];
       c.scope == scope && c.children == children && c.start == range.start && c.stop == range.stop
  }

  /** One executed scenario: its result under a reused or new UUID, then the container of its hooks. */
  method RunAttempt(ctx: Context, planned: Planned, existing: map<string, string>, supply: Supply, p0: Progress,
                    pending0: seq<string>, outcome: Outcome, ghost used: set<string>, ghost plan: seq<Planned>)
    returns (p: Progress, pending: seq<string>, ok: bool)
    requires planned.Attempt? && Maps(outcome, ctx.strict) && Fresh(supply, used)
    requires Sound(outcome, existing, supply, Whole(ctx, supply), plan, p0, pending0)
    ensures ok ==> Sound(outcome, existing, supply, Whole(ctx, supply), plan + [planned], p, pending)
    ensures !ctx.strict ==> ok
    ensures Reliable(supply) ==>
              (ok <==> IsEntryImportable(ctx, outcome, planned)) && (ok ==> |pending| == |pending0| + 1)
    ensures ok && p.containers != p0.containers ==>
              && |pending| == |pending0| + 1
              && AddsContainer(p0.containers, p.containers, ScenarioHooks, pending[|pending0|..], planned.live.range)
  {
    p, pending, ok := p0, pending0, true;
    var uuid, draws := Some(""), p0.draws;
    if planned.key in existing {
      uuid := Some(existing[planned.key]);
    }
    if uuid == Some("") {
      uuid, draws := supply(p0.draws), p0.draws + 1;
    }
    if uuid.None? {
      p, ok := p0.(draws := draws), !ctx.strict;
      if ok {
        SoundWithoutAttempt(outcome, existing, supply, plan, p0, pending0, planned, draws);
      }
      return;
    }
    var result := outcome(planned, uuid.value);
    if result.None? {
      ok := false;
      return;
    }
    var results := p0.results + [Artifact(planned.key, result.value)];
    pending := pending0 + [result.value.uuid];
    var containerUuid := supply(draws);
    p := Progress(results, p0.containers, draws + 1);
    if containerUuid.None? {
      ok := !ctx.strict;
      if ok {
        SoundUncontained(outcome, existing, supply, used, plan, p0, pending0, planned, result.value, draws);
      }
      return;
    }
    FixtureStepsFailExactly(ctx, planned.scenario, planned.live.range);
    if HooksFail(ctx, planned.scenario.hooksImportable) ||
      (ctx.strict && FixtureStepsFail(ctx, planned.scenario, planned.live.range)) {
      ok := false;
      return;
    }
    var container := Container(containerUuid.value, ScenarioHooks, [result.value.uuid], planned.live.range.start,
                               planned.live.range.stop);
    p := Progress(results, p0.containers + [container], draws + 1);
    SoundAttempt(outcome, existing, supply, used, Whole(ctx, supply), plan, p0, pending0, planned, result.value, draws,
                 container);
  }

  /** The item loop of a specification, with its time cursor. */
  method RunItems(ctx: Context, spec: Spec, seeder: Seeder, specRange: Range, live: map<string, LiveInfo>,
                  existing: map<string, string>, supply: Supply, p0: Progress, outcome: Outcome,
                  ghost used: set<string>, ghost plan0: seq<Planned>)
    returns (p: Progress, pending: seq<string>, ok: bool)
    requires Maps(outcome, ctx.strict) && Fresh(supply, used)
    requires Sound(outcome, existing, supply, Whole(ctx, supply), plan0, p0, [])
    ensures ok ==>
      Sound(outcome, existing, supply, Whole(ctx, supply),
            plan0 + Timed(spec, Seeds(seeder, spec.items), specRange.start, specRange, live), p, pending)
    ensures !ctx.strict ==> ok
    ensures Reliable(supply) ==>
              var attempts := Timed(spec, Seeds(seeder, spec.items), specRange.start, specRange, live);
              (ok <==> AreImportable(ctx, outcome, attempts)) && (ok ==> |pending| == |attempts|)
  {
    p, pending, ok := p0, [], true;
    var cursor: int64 := specRange.start;
    ghost var plan := plan0;
    ghost var attempts := Timed(spec, Seeds(seeder, spec.items), specRange.start, specRange, live);
    ghost var all := plan0 + attempts;
    ghost var rest := attempts;
    assert spec.items[0..] == spec.items;
    for i := 0 to |spec.items|
      invariant ok
      invariant rest == Timed(spec, Seeds(seeder, spec.items[i..]), cursor, specRange, live) && plan + rest == all
      invariant Sound(outcome, existing, supply, Whole(ctx, supply), plan, p, pending)
      invariant Reliable(supply) ==> IsPassed(ctx, outcome, |pending|, rest, attempts)
    {
      SeedsTurn(seeder, spec.items, i);
      if Executed(spec.items[i]).None? {
        continue;
      }
      var seed := seeder(spec.items[i].value, Executed(spec.items[i]).value);
      var info := LiveOf(seed, cursor, specRange, live);
      var planned := Attempt(seed.key, spec.file, seed.item, seed.scenario, seed.retry, info, FindSpecTable(spec));
      TimedTurn(spec, seed, Seeds(seeder, spec.items[i + 1..]), cursor, specRange, live, plan);
      cursor := Max(cursor, info.range.stop);
      PassNext(ctx, outcome, |pending|, planned, rest, attempts);
      p, pending, ok := RunAttempt(ctx, planned, existing, supply, p, pending, outcome, used, plan);
      if !ok {
        return;
      }
      plan, rest := plan + [planned], rest[1..];
    }
    assert plan + [] == plan;
  }

  /** All attempts but the rest are mapped, and were importable. */
  ghost predicate IsPassed(ctx: Context, outcome: Outcome, mapped: nat, rest: seq<Planned>, attempts: seq<Planned>) {
    && mapped + |rest| == |attempts|
    && (AreImportable(ctx, outcome, attempts) <==> AreImportable(ctx, outcome, rest))
  }

  lemma PassNext(ctx: Context, outcome: Outcome, mapped: nat, p: Planned, rest: seq<Planned>, attempts: seq<Planned>)
    requires rest != [] && rest[0] == p
    ensures IsPassed(ctx, outcome, mapped, rest, attempts) ==>
              if IsEntryImportable(ctx, outcome, p) then IsPassed(ctx, outcome, mapped + 1, rest[1..], attempts)
              else !AreImportable(ctx, outcome, attempts)
  {
    assert rest == [p] + rest[1..];
    ImportableCons(ctx, outcome, p, rest[1..]);
  }

  lemma ImportableCons(ctx: Context, outcome: Outcome, p: Planned, rest: seq<Planned>)
    ensures AreImportable(ctx, outcome, [p] + rest) <==>
            IsEntryImportable(ctx, outcome, p) && AreImportable(ctx, outcome, rest)
  {
    assert p in [p] + rest && forall q <- rest :: q in [p] + rest;
  }

  lemma SeedsTurn(seeder: Seeder, items: seq<Option<SpecItem>>, i: nat)
    requires i < |items|
    ensures Seeds(seeder, items[i..]) ==
            if Executed(items[i]).None? then Seeds(seeder, items[i + 1..])
            else [seeder(items[i].value, Executed(items[i]).value)] + Seeds(seeder, items[i + 1..])
  {
  }

  lemma TimedTurn(spec: Spec, seed: Seed, rest: seq<Seed>, cursor: int64, specRange: Range, live: map<string, LiveInfo>,
                  plan: seq<Planned>)
    ensures var info := LiveOf(seed, cursor, specRange, live);
            Timed(spec, [seed] + rest, cursor, specRange, live) ==
            [Attempt(seed.key, spec.file, seed.item, seed.scenario, seed.retry, info, FindSpecTable(spec))] +
            Timed(spec, rest, Max(cursor, info.range.stop), specRange, live)
    ensures var info := LiveOf(seed, cursor, specRange, live);
            plan + Timed(spec, [seed] + rest, cursor, specRange, live) ==
            plan + [Attempt(seed.key, spec.file, seed.item, seed.scenario, seed.retry, info, FindSpecTable(spec))] +
            Timed(spec, rest, Max(cursor, info.range.stop), specRange, live)
  {
  }

  /** A synthetic result under a new UUID. */
  method RunSynthetic(ctx: Context, planned: Planned, existing: map<string, string>, supply: Supply, p0: Progress,
                      outcome: Outcome, ghost used: set<string>, ghost plan: seq<Planned>)
    returns (p: Progress, ok: bool)
    requires planned.Synthetic? && Maps(outcome, ctx.strict) && Fresh(supply, used)
    requires Sound(outcome, existing, supply, Whole(ctx, supply), plan, p0, [])
    ensures ok ==> Sound(outcome, existing, supply, Whole(ctx, supply), plan + [planned], p, [])
    ensures ok <==> supply(p0.draws).Some?
  {
    var uuid := supply(p0.draws);
    if uuid.None? {
      return p0, false;
    }
    var result := outcome(planned, uuid.value).value;
    p, ok := Progress(p0.results + [Artifact(planned.key, result)], p0.containers, p0.draws + 1), true;
    SoundSynthetic(outcome, existing, supply, used, Whole(ctx, supply), plan, p0, planned, result);
  }

  lemma ErrorsFrom(namer: ErrorNamer, errors: seq<Option<GaugeError>>, i: nat, at: int64)
    requires i < |errors|
    ensures PlanErrors(namer, errors[i..], i, at) ==
            (if errors[i].None? then [] else [Synthetic(namer(errors[i].value, i), Broken, at)]) +
            PlanErrors(namer, errors[i + 1..], i + 1, at)
  {
    assert errors[i..][1..] == errors[i + 1..] && errors[i..][0] == errors[i];
  }

  /** The loop over the errors of a specification. */
  method RunErrors(ctx: Context, namer: ErrorNamer, errors: seq<Option<GaugeError>>, at: int64,
                   existing: map<string, string>, supply: Supply, p0: Progress, outcome: Outcome,
                   ghost used: set<string>, ghost plan0: seq<Planned>)
    returns (p: Progress, ok: bool)
    requires Maps(outcome, ctx.strict) && Fresh(supply, used)
    requires Sound(outcome, existing, supply, Whole(ctx, supply), plan0, p0, [])
    ensures ok ==> Sound(outcome, existing, supply, Whole(ctx, supply), plan0 + PlanErrors(namer, errors, 0, at), p, [])
    ensures Reliable(supply) ==> ok
  {
    p, ok := p0, true;
    ghost var plan := plan0;
    assert errors[0..] == errors;
    for i := 0 to |errors|
      invariant ok
      invariant plan + PlanErrors(namer, errors[i..], i, at) == plan0 + PlanErrors(namer, errors, 0, at)
      invariant Sound(outcome, existing, supply, Whole(ctx, supply), plan, p, [])
    {
      ErrorsFrom(namer, errors, i, at);
      ghost var rest := PlanErrors(namer, errors[i + 1..], i + 1, at);
      if errors[i].None? {
        assert [] + rest == rest;
        continue;
      }
      var planned := Synthetic(namer(errors[i].value, i), Broken, at);
      p, ok := RunSynthetic(ctx, planned, existing, supply, p, outcome, used, plan);
      if !ok {
        return;
      }
      assert plan + ([planned] + rest) == (plan + [planned]) + rest;
      plan := plan + [planned];
    }
    assert plan + [] == plan;
  }

  lemma SpecContained(whole: bool, plan: seq<Planned>, results: seq<Artifact>, containers: seq<Container>,
                      pending: seq<string>, container: Container)
    requires |plan| == |results| && Contained(whole, plan, results, containers, pending) && pending != []
    requires container.scope == SpecHooks && container.children == pending
    ensures Contained(whole, plan, results, containers + [container], [])
  {
    ChildrenAppend(containers, container, ScenarioHooks);
    ChildrenAppend(containers, container, SpecHooks);
    assert Children(containers + [container], SpecHooks) + [] == Children(containers + [container], SpecHooks);
    assert Children(containers, ScenarioHooks) + [] == Children(containers, ScenarioHooks);
  }

  lemma SoundSpec(outcome: Outcome, existing: map<string, string>, supply: Supply, whole: bool, plan: seq<Planned>,
                  p: Progress, pending: seq<string>, container: Container)
    requires Sound(outcome, existing, supply, whole, plan, p, pending) && pending != []
    requires container.scope == SpecHooks && container.children == pending
    ensures Sound(outcome, existing, supply, whole, plan, Progress(p.results, p.containers + [container], p.draws + 1),
                  [])
  {
    var kept :| Realized(outcome, existing, supply, whole, plan, kept, p, pending);
    MoreDraws(outcome, existing, supply, kept, p.results, p.draws, p.draws + 1);
    SpecContained(whole, kept, p.results, p.containers, pending, container);
    assert Realized(outcome, existing, supply, whole, plan, kept,
                    Progress(p.results, p.containers + [container], p.draws + 1), []);
  }

  lemma SpecUncontained(plan: seq<Planned>, results: seq<Artifact>, containers: seq<Container>, pending: seq<string>)
    requires |plan| == |results| && Contained(false, plan, results, containers, pending)
    ensures Contained(false, plan, results, containers, [])
  {
    assert Children(containers, SpecHooks) + [] == Children(containers, SpecHooks);
    assert forall u <- Children(containers, SpecHooks) :: u in Children(containers, SpecHooks) + pending;
  }

  lemma SoundWithoutSpec(outcome: Outcome, existing: map<string, string>, supply: Supply, plan: seq<Planned>,
                         p: Progress, pending: seq<string>)
    requires Sound(outcome, existing, supply, false, plan, p, pending)
    ensures Sound(outcome, existing, supply, false, plan, p.(draws := p.draws + 1), [])
  {
    var kept :| Realized(outcome, existing, supply, false, plan, kept, p, pending);
    MoreDraws(outcome, existing, supply, kept, p.results, p.draws, p.draws + 1);
    SpecUncontained(kept, p.results, p.containers, pending);
    assert Realized(outcome, existing, supply, false, plan, kept, p.(draws := p.draws + 1), []);
  }

  /** The container of a specification that has children. */
  method RunSpecContainer(ctx: Context, spec: Spec, specRange: Range, pending: seq<string>, supply: Supply,
                          p0: Progress, ghost outcome: Outcome, ghost existing: map<string, string>,
                          ghost plan: seq<Planned>)
    returns (p: Progress, ok: bool)
    requires Sound(outcome, existing, supply, Whole(ctx, supply), plan, p0, pending)
    ensures ok ==> Sound(outcome, existing, supply, Whole(ctx, supply), plan, p, [])
    ensures !ctx.strict ==> ok
    ensures Reliable(supply) ==> (ok <==> (pending != [] && ctx.strict && ctx.attachments ==> spec.hooksImportable))
    ensures p.results == p0.results
    ensures ok && p.containers != p0.containers ==>
              AddsContainer(p0.containers, p.containers, SpecHooks, pending, specRange)
  {
    p, ok := p0, true;
    if |pending| == 0 {
      return;
    }
    var uuid := supply(p0.draws);
    p := p0.(draws := p0.draws + 1);
    if uuid.None? {
      ok := !ctx.strict;
      if ok {
        SoundWithoutSpec(outcome, existing, supply, plan, p0, pending);
      }
      return;
    }
    if HooksFail(ctx, spec.hooksImportable) {
      ok := false;
      return;
    }
    var container := Container(uuid.value, SpecHooks, pending, specRange.start, specRange.stop);
    SoundSpec(outcome, existing, supply, Whole(ctx, supply), plan, p0, pending, container);
    p := Progress(p0.results, p0.containers + [container], p0.draws + 1);
  }

  /** A specification that arrived with its content: errors, then items, then its container. */
  method RunSpecContent(ctx: Context, spec: Spec, namer: ErrorNamer, seeder: Seeder, errors: seq<Option<GaugeError>>,
                        at: int64, specRange: Range, live: map<string, LiveInfo>, existing: map<string, string>,
                        supply: Supply, p0: Progress, outcome: Outcome, ghost used: set<string>,
                        ghost plan0: seq<Planned>)
    returns (p: Progress, ok: bool)
    requires Maps(outcome, ctx.strict) && Fresh(supply, used)
    requires Sound(outcome, existing, supply, Whole(ctx, supply), plan0, p0, [])
    ensures ok ==>
      Sound(outcome, existing, supply, Whole(ctx, supply),
            plan0 +
              (PlanErrors(namer, errors, 0, at) + Timed(spec, Seeds(seeder, spec.items), specRange.start, specRange,
                                                        live)), p, [])
    ensures Reliable(supply) && !ctx.strict ==> ok
    ensures Reliable(supply) ==>
              (ok <==> IsSpecImportable(ctx, outcome, Some(spec),
                                        PlanErrors(namer, errors, 0, at) +
                                          Timed(spec, Seeds(seeder, spec.items), specRange.start, specRange, live)))
  {
    p, ok := RunErrors(ctx, namer, errors, at, existing, supply, p0, outcome, used, plan0);
    if !ok {
      return;
    }
    ghost var fromErrors := PlanErrors(namer, errors, 0, at);
    ghost var fromItems := Timed(spec, Seeds(seeder, spec.items), specRange.start, specRange, live);
    AllAttempts(spec, Seeds(seeder, spec.items), specRange.start, specRange, live);
    ContentImportable(ctx, outcome, spec, namer, errors, at, fromItems);
    Associates(plan0, fromErrors, fromItems);
    var pending: seq<string>;
    p, pending, ok := RunItems(ctx, spec, seeder, specRange, live, existing, supply, p, outcome, used,
                               plan0 + fromErrors);
    if !ok {
      return;
    }
    p, ok := RunSpecContainer(ctx, spec, specRange, pending, supply, p, outcome, existing,
                              plan0 + (fromErrors + fromItems));
  }

  lemma {:induction false} ErrorsAreNoAttempts(namer: ErrorNamer, errors: seq<Option<GaugeError>>, index: nat,
                                               at: int64)
    ensures forall p <- PlanErrors(namer, errors, index, at) :: p.Synthetic?
  {
    if errors != [] {
      ErrorsAreNoAttempts(namer, errors[1..], index + 1, at);
    }
  }

  /** Reported errors need no imports. */
  lemma ContentImportable(ctx: Context, outcome: Outcome, spec: Spec, namer: ErrorNamer,
                          errors: seq<Option<GaugeError>>, at: int64, attempts: seq<Planned>)
    requires forall a <- attempts :: a.Attempt?
    ensures IsSpecImportable(ctx, outcome, Some(spec), PlanErrors(namer, errors, 0, at) + attempts) <==>
            IsContentImportable(ctx, outcome, spec, attempts)
  {
    ErrorsAreNoAttempts(namer, errors, 0, at);
    assert forall a <- attempts :: a in PlanErrors(namer, errors, 0, at) + attempts;
    if attempts != [] {
      assert attempts[0] in attempts;
    }
  }

  lemma GapImportable(ctx: Context, outcome: Outcome, gap: Planned)
    requires gap.Synthetic?
    ensures IsSpecImportable(ctx, outcome, None, [gap])
  {
  }

  /** A specification result that is missing, or whose specification is. */
  method RunGap(ctx: Context, gap: Planned, existing: map<string, string>, supply: Supply, p0: Progress,
                outcome: Outcome, ghost used: set<string>, ghost plan0: seq<Planned>, ghost planned: seq<Planned>)
    returns (p: Progress, ok: bool)
    requires gap.Synthetic? && planned == [gap] && Maps(outcome, ctx.strict) && Fresh(supply, used)
    requires Sound(outcome, existing, supply, Whole(ctx, supply), plan0, p0, [])
    ensures ok ==> Sound(outcome, existing, supply, Whole(ctx, supply), plan0 + planned, p, [])
    ensures ok <==> supply(p0.draws).Some?
    ensures IsSpecImportable(ctx, outcome, None, planned)
  {
    GapImportable(ctx, outcome, gap);
    p, ok := RunSynthetic(ctx, gap, existing, supply, p0, outcome, used, plan0);
  }

  /** One turn of the specification loop. */
  method RunSpec(ctx: Context, specResult: Option<SpecResult>, index: nat, suiteRange: Range,
                 live: map<string, LiveInfo>, existing: map<string, string>, supply: Supply, p0: Progress,
                 outcome: Outcome, ghost used: set<string>, ghost plan0: seq<Planned>, ghost planned: seq<Planned>)
    returns (p: Progress, ok: bool)
    requires Maps(outcome, ctx.strict) && Fresh(supply, used)
    requires planned == SpecPlannerOf(ctx, suiteRange, live)(specResult, index)
    requires Sound(outcome, existing, supply, Whole(ctx, supply), plan0, p0, [])
    ensures ok ==> Sound(outcome, existing, supply, Whole(ctx, supply), plan0 + planned, p, [])
    ensures Reliable(supply) && !ctx.strict ==> ok
    ensures Reliable(supply) ==> (ok <==> IsSpecImportable(ctx, outcome, SpecOf(specResult), planned))
  {
    match specResult {
      case None =>
        var gap := Synthetic("protocol:nil-spec:" + Decimal(index), Broken, suiteRange.start);
        assert planned == [gap] by { PlannedGaps(ctx, index, suiteRange, live, [], None, 0); }
        p, ok := RunGap(ctx, gap, existing, supply, p0, outcome, used, plan0, planned);
      case Some(SpecResult(None, errors, timestamp, duration)) =>
        var gap := Synthetic("protocol:missing-proto-spec:" + Decimal(index), Broken, suiteRange.start);
        assert planned == [gap] by { PlannedGaps(ctx, index, suiteRange, live, errors, timestamp, duration); }
        p, ok := RunGap(ctx, gap, existing, supply, p0, outcome, used, plan0, planned);
      case Some(SpecResult(Some(spec), errors, timestamp, duration)) =>
        var at := if timestamp.Some? then MillisOf(timestamp.value) else suiteRange.start;
        var specRange := Resolve(timestamp, duration, At(suiteRange.start));
        var namer, seeder := ErrorNamerOf(ctx, spec), SeederOf(ctx, spec);
        PlannedContent(ctx, index, suiteRange, live, spec, errors, timestamp, duration);
        p, ok := RunSpecContent(ctx, spec, namer, seeder, errors, at, specRange, live, existing, supply, p0, outcome,
                                used, plan0);
    }
  }

  // ---------------------------------------------------------------- MapSuite

  ghost predicate OnlySuiteContainer(containers: seq<Container>, k: nat) {
    forall j :: 0 <= j < |containers| ==> (containers[j].scope == SuiteHooks <==> j == k)
  }

  ghost predicate OneSuiteContainer(containers: seq<Container>) {
    exists k :: 0 <= k < |containers| && OnlySuiteContainer(containers, k)
  }

  /** One suite container lists all results; it can be missing from a mapping that is not whole. */
  ghost predicate ListsSuite(whole: bool, output: SuiteOutput) {
    || (OneSuiteContainer(output.containers) &&
        multiset(Children(output.containers, SuiteHooks)) == multiset(Uuids(output.results)))
    || (!whole && forall c <- output.containers :: c.scope != SuiteHooks)
  }

  /** The children are attempts; in a whole mapping they are all of them, each once. */
  ghost predicate Refers(whole: bool, children: seq<string>, attempts: seq<string>) {
    (forall u <- children :: u in attempts) && (whole ==> multiset(children) == multiset(attempts))
  }

  lemma RefersInAnyOrder(whole: bool, children: seq<string>, attempts: seq<string>, sorted: seq<string>)
    requires Refers(whole, children, attempts) && multiset(sorted) == multiset(children)
    ensures Refers(whole, sorted, attempts)
  {
    forall u | u in sorted ensures u in attempts {
      assert u in multiset(sorted) && u in multiset(children);
    }
  }

  /** What MapSuite promises of a delivered suite whose results realise this plan. */
  ghost predicate Reconciled(outcome: Outcome, existing: map<string, string>, drawn: set<string>, whole: bool,
                             plan: seq<Planned>, emitted: seq<Artifact>, output: SuiteOutput) {
    && Describes(outcome, existing, drawn, plan, emitted)
    && multiset(output.results) == multiset(emitted)
    && IsInTimeOrder(output.results) && KeepsTies(emitted, output.results)
    && IsInUuidOrder(output.containers)
    && (forall c <- output.containers :: IsContainer(c))
    && ListsSuite(whole, output)
    && Refers(whole, Children(output.containers, SpecHooks), AttemptUuids(plan, emitted))
    && Refers(whole, Children(output.containers, ScenarioHooks), AttemptUuids(plan, emitted))
  }

  /** The plan up to attempts that found no UUID; when nothing is left, one synthetic entry. */
  predicate IsLeft(existing: map<string, string>, kept: seq<Planned>, plan: seq<Planned>, fallback: Planned) {
    (kept != [] && IsKept(existing, kept, plan)) || (kept == [fallback] && IsKept(existing, [], plan))
  }

  ghost predicate IsDelivered(ctx: Context, suite: SuiteResult, now: Instant, live: map<string, LiveInfo>,
                              existing: map<string, string>, kept: seq<Planned>) {
    var range := SuiteRange(suite, now);
    IsLeft(existing, kept, PlanSpecs(SpecPlannerOf(ctx, range, live), suite.specs, 0), EmptyEntry(suite, range))
  }

  lemma DuplicateCounts<T>(xs: seq<T>, i: nat, j: nat)
    requires i < j < |xs| && xs[i] == xs[j]
    ensures multiset(xs)[xs[i]] >= 2
  {
    assert xs == xs[..j] + [xs[j]] + xs[j + 1..];
    assert xs[..j][i] in multiset(xs[..j]);
  }

  lemma SortKeepsOneSuiteContainer(before: seq<Container>, suite: Container)
    requires suite.scope == SuiteHooks && forall c <- before :: c.scope != SuiteHooks
    ensures OneSuiteContainer(StableSort(SmallerUuid, before + [suite]))
  {
    var sorted := StableSort(SmallerUuid, before + [suite]);
    assert multiset(sorted) == multiset(before) + multiset{suite};
    assert suite in multiset(sorted) && suite !in multiset(before);
    var k :| 0 <= k < |sorted| && sorted[k] == suite;
    forall j | 0 <= j < |sorted| && sorted[j].scope == SuiteHooks ensures j == k {
      assert sorted[j] in multiset(sorted);
      if j != k {
        DuplicateCounts(sorted, if j < k then j else k, if j < k then k else j);
      }
    }
    assert OnlySuiteContainer(sorted, k);
  }

  lemma {:induction false} NoChildren(containers: seq<Container>, scope: Scope)
    requires forall c <- containers :: c.scope != scope
    ensures Children(containers, scope) == []
  {
    if containers != [] {
      NoChildren(containers[1..], scope);
    }
  }

  lemma FinishResults(results: seq<Artifact>)
    ensures var sorted := StableSort(Earlier, results);
            && IsInTimeOrder(sorted) && KeepsTies(results, sorted)
            && multiset(sorted) == multiset(results) && multiset(Uuids(sorted)) == multiset(Uuids(results))
  {
    SuiteOrders();
    StableSortSorts(Earlier, results);
    SortKeepsTies(results);
    SortKeepsUuids(results);
  }

  lemma FinishChildren(before: seq<Container>, suite: Container, scope: Scope)
    requires suite.scope == SuiteHooks && forall c <- before :: c.scope != SuiteHooks
    ensures multiset(Children(StableSort(SmallerUuid, before + [suite]), scope)) ==
            multiset(if scope == SuiteHooks then suite.children else Children(before, scope))
  {
    SortKeepsChildren(before + [suite], scope);
    ChildrenAppend(before, suite, scope);
    if scope == SuiteHooks {
      NoChildren(before, SuiteHooks);
      assert [] + suite.children == suite.children;
    }
  }

  lemma SortedContainers(containers: seq<Container>)
    requires forall c <- containers :: IsContainer(c)
    ensures var sorted := StableSort(SmallerUuid, containers);
            IsInUuidOrder(sorted) && (forall c <- sorted :: IsContainer(c) && c in containers)
  {
    var sorted := StableSort(SmallerUuid, containers);
    SuiteOrders();
    StableSortSorts(SmallerUuid, containers);
    forall c | c in sorted ensures IsContainer(c) && c in containers {
      assert c in multiset(sorted) && multiset(sorted) == multiset(containers);
      assert c in containers;
    }
  }

  lemma ContainedRefers(whole: bool, plan: seq<Planned>, results: seq<Artifact>, containers: seq<Container>)
    requires |plan| == |results| && Contained(whole, plan, results, containers, [])
    ensures Refers(whole, Children(containers, SpecHooks), AttemptUuids(plan, results))
    ensures Refers(whole, Children(containers, ScenarioHooks), AttemptUuids(plan, results))
  {
    assert Children(containers, SpecHooks) + [] == Children(containers, SpecHooks);
  }

  lemma FinishWithSuite(whole: bool, attempts: seq<string>, before: seq<Container>, suite: Container)
    requires suite.scope == SuiteHooks && forall c <- before :: c.scope != SuiteHooks
    requires Refers(whole, Children(before, SpecHooks), attempts)
    requires Refers(whole, Children(before, ScenarioHooks), attempts)
    ensures var sorted := StableSort(SmallerUuid, before + [suite]);
            && Refers(whole, Children(sorted, SpecHooks), attempts)
            && Refers(whole, Children(sorted, ScenarioHooks), attempts)
            && multiset(Children(sorted, SuiteHooks)) == multiset(suite.children)
  {
    var sorted := StableSort(SmallerUuid, before + [suite]);
    FinishChildren(before, suite, SuiteHooks);
    FinishChildren(before, suite, SpecHooks);
    FinishChildren(before, suite, ScenarioHooks);
    RefersInAnyOrder(whole, Children(before, SpecHooks), attempts, Children(sorted, SpecHooks));
    RefersInAnyOrder(whole, Children(before, ScenarioHooks), attempts, Children(sorted, ScenarioHooks));
  }

  lemma FinishWithoutSuite(attempts: seq<string>, before: seq<Container>)
    requires Refers(false, Children(before, SpecHooks), attempts)
    requires Refers(false, Children(before, ScenarioHooks), attempts)
    ensures var sorted := StableSort(SmallerUuid, before);
            Refers(false, Children(sorted, SpecHooks), attempts) &&
              Refers(false, Children(sorted, ScenarioHooks), attempts)
  {
    var sorted := StableSort(SmallerUuid, before);
    SortKeepsChildren(before, SpecHooks);
    SortKeepsChildren(before, ScenarioHooks);
    RefersInAnyOrder(false, Children(before, SpecHooks), attempts, Children(sorted, SpecHooks));
    RefersInAnyOrder(false, Children(before, ScenarioHooks), attempts, Children(sorted, ScenarioHooks));
  }

  lemma Finish(outcome: Outcome, existing: map<string, string>, supply: Supply, whole: bool, kept: seq<Planned>,
               p: Progress, suite: Container)
    requires Good(outcome, existing, supply, whole, kept, p, []) && p.results != []
    requires suite.scope == SuiteHooks && suite.children == Uuids(p.results)
    ensures Reconciled(outcome, existing, Drawn(supply, p.draws + 1), whole, kept, p.results,
                       SuiteOutput(StableSort(Earlier, p.results), StableSort(SmallerUuid, p.containers + [suite])))
  {
    FinishResults(p.results);
    SortedContainers(p.containers + [suite]);
    SortKeepsOneSuiteContainer(p.containers, suite);
    ContainedRefers(whole, kept, p.results, p.containers);
    FinishWithSuite(whole, AttemptUuids(kept, p.results), p.containers, suite);
    MoreDraws(outcome, existing, supply, kept, p.results, p.draws, p.draws + 1);
  }

  lemma FinishWithoutContainer(outcome: Outcome, existing: map<string, string>, supply: Supply, kept: seq<Planned>,
                               p: Progress)
    requires Good(outcome, existing, supply, false, kept, p, [])
    ensures Reconciled(outcome, existing, Drawn(supply, p.draws + 1), false, kept, p.results,
                       SuiteOutput(StableSort(Earlier, p.results), StableSort(SmallerUuid, p.containers)))
  {
    FinishResults(p.results);
    SortedContainers(p.containers);
    ContainedRefers(false, kept, p.results, p.containers);
    FinishWithoutSuite(AttemptUuids(kept, p.results), p.containers);
    MoreDraws(outcome, existing, supply, kept, p.results, p.draws, p.draws + 1);
  }

  lemma PlanSpecsTurn(planner: SpecPlanner, specs: seq<Option<SpecResult>>, i: nat)
    requires i < |specs|
    ensures PlanSpecs(planner, specs[i..], i) == planner(specs[i], i) + PlanSpecs(planner, specs[i + 1..], i + 1)
  {
  }

  /** The specification loop. */
  method RunSpecs(ctx: Context, specs: seq<Option<SpecResult>>, range: Range, live: map<string, LiveInfo>,
                  existing: map<string, string>, supply: Supply, outcome: Outcome, ghost used: set<string>)
    returns (p: Progress, ok: bool)
    requires Maps(outcome, ctx.strict) && Fresh(supply, used)
    ensures ok ==>
      Sound(outcome, existing, supply, Whole(ctx, supply), PlanSpecs(SpecPlannerOf(ctx, range, live), specs, 0), p, [])
    ensures Reliable(supply) && !ctx.strict ==> ok
    ensures Reliable(supply) ==>
              (ok <==> forall k: nat :: k < |specs| ==>
                 IsSpecImportable(ctx, outcome, SpecOf(specs[k]), SpecPlannerOf(ctx, range, live)(specs[k], k)))
  {
    p, ok := Progress([], [], 0), true;
    ghost var planner := SpecPlannerOf(ctx, range, live);
    ghost var plan: seq<Planned> := [];
    assert Realized(outcome, existing, supply, Whole(ctx, supply), plan, [], p, []);
    assert specs[0..] == specs;
    for i := 0 to |specs|
      invariant ok
      invariant plan + PlanSpecs(planner, specs[i..], i) == PlanSpecs(planner, specs, 0)
      invariant Sound(outcome, existing, supply, Whole(ctx, supply), plan, p, [])
      invariant Reliable(supply) ==>
        forall k: nat :: k < i ==> IsSpecImportable(ctx, outcome, SpecOf(specs[k]), planner(specs[k], k))
    {
      PlanSpecsTurn(planner, specs, i);
      Associates(plan, planner(specs[i], i), PlanSpecs(planner, specs[i + 1..], i + 1));
      p, ok := RunSpec(ctx, specs[i], i, range, live, existing, supply, p, outcome, used, plan, planner(specs[i], i));
      if !ok {
        return;
      }
      plan := plan + planner(specs[i], i);
    }
    assert plan + [] == plan;
  }

  /** The synthetic result of a suite that has no other. */
  method RunFallback(ctx: Context, fallback: Planned, existing: map<string, string>, supply: Supply, p0: Progress,
                     outcome: Outcome, ghost used: set<string>, ghost plan: seq<Planned>)
    returns (p: Progress, ok: bool, ghost kept: seq<Planned>)
    requires fallback.Synthetic? && Maps(outcome, ctx.strict) && Fresh(supply, used)
    requires Sound(outcome, existing, supply, Whole(ctx, supply), plan, p0, [])
    ensures ok ==>
      kept != [] && IsLeft(existing, kept, plan, fallback) &&
        Good(outcome, existing, supply, Whole(ctx, supply), kept, p, [])
    ensures ok && Whole(ctx, supply) ==> kept == if plan == [] then [fallback] else plan
    ensures Reliable(supply) ==> ok
  {
    p, ok := p0, true;
    kept :| Realized(outcome, existing, supply, Whole(ctx, supply), plan, kept, p0, []);
    if |p0.results| == 0 {
      assert Realized(outcome, existing, supply, Whole(ctx, supply), [], kept, p0, []);
      p, ok := RunSynthetic(ctx, fallback, existing, supply, p0, outcome, used, []);
      if ok {
        kept := OnlyEntry(outcome, existing, supply, Whole(ctx, supply), fallback, p);
      }
    }
  }

  /** A delivered suite: the specifications, the fallback for an empty suite, the suite container, the order. */
  method RunSuite(ctx: Context, suite: SuiteResult, now: Instant, live: map<string, LiveInfo>,
                  existing: map<string, string>, supply: Supply, outcome: Outcome, ghost used: set<string>)
    returns (output: SuiteOutput, draws: nat, ok: bool, ghost emitted: seq<Artifact>, ghost kept: seq<Planned>)
    requires Maps(outcome, ctx.strict) && Fresh(supply, used)
    ensures Reliable(supply) && !ctx.strict ==> ok
    ensures Reliable(supply) ==>
              (ok <==> IsSuiteImportable(ctx, outcome, suite, SpecPlannerOf(ctx, SuiteRange(suite, now), live)))
    ensures ok ==>
      IsDelivered(ctx, suite, now, live, existing, kept) && (Whole(ctx, supply) ==> kept == Plan(ctx, suite, now, live))
    ensures ok ==> Reconciled(outcome, existing, Drawn(supply, draws), Whole(ctx, supply), kept, emitted, output)
  {
    output, emitted, kept := SuiteOutput([], []), [], [];
    var range := SuiteRange(suite, now);
    var p;
    p, ok := RunSpecs(ctx, suite.specs, range, live, existing, supply, outcome, used);
    draws := p.draws;
    if !ok {
      return;
    }
    ghost var plan := PlanSpecs(SpecPlannerOf(ctx, range, live), suite.specs, 0);
    p, ok, kept := RunFallback(ctx, EmptyEntry(suite, range), existing, supply, p, outcome, used, plan);
    draws := p.draws;
    if !ok {
      return;
    }
    output, draws, ok := RunSuiteContainer(ctx, suite, range, supply, p, outcome, existing, kept);
    emitted := p.results;
  }

  lemma OnlyEntry(outcome: Outcome, existing: map<string, string>, supply: Supply, whole: bool, planned: Planned,
                  p: Progress)
    returns (kept: seq<Planned>)
    requires planned.Synthetic? && Sound(outcome, existing, supply, whole, [] + [planned], p, [])
    ensures kept == [planned] && Good(outcome, existing, supply, whole, kept, p, [])
  {
    assert [] + [planned] == [planned];
    kept :| Realized(outcome, existing, supply, whole, [planned], kept, p, []);
    AllKept(existing, kept, planned);
  }

  lemma AllKept(existing: map<string, string>, kept: seq<Planned>, planned: Planned)
    requires IsKept(existing, kept, [planned]) && planned.Synthetic?
    ensures kept == [planned]
  {
    assert planned !in multiset(kept) ==> planned in multiset([planned]) - multiset(kept);
    assert multiset(kept) == multiset{planned};
    assert |multiset(kept)| == 1;
    assert kept[0] in multiset(kept);
  }

  /** The container of the whole suite, and the final order of results and containers. */
  /** Suite containers cover the range of the suite. */
  predicate SuiteContainersLast(containers: seq<Container>, range: Range) {
    forall c <- containers :: c.scope == SuiteHooks ==> c.start == range.start && c.stop == range.stop
  }

  lemma SortKeepsSuiteRange(before: seq<Container>, suite: Container, range: Range)
    requires (forall c <- before :: c.scope != SuiteHooks) && suite.start == range.start && suite.stop == range.stop
    ensures SuiteContainersLast(StableSort(SmallerUuid, before + [suite]), range)
  {
    var sorted := StableSort(SmallerUuid, before + [suite]);
    forall c | c in sorted ensures c in before + [suite] {
      assert c in multiset(sorted) && c in multiset(before + [suite]);
    }
  }

  lemma SortKeepsNoSuite(containers: seq<Container>, range: Range)
    requires forall c <- containers :: c.scope != SuiteHooks
    ensures SuiteContainersLast(StableSort(SmallerUuid, containers), range)
  {
    var sorted := StableSort(SmallerUuid, containers);
    forall c | c in sorted ensures c in containers {
      assert c in multiset(sorted) && c in multiset(containers);
    }
  }

  method RunSuiteContainer(ctx: Context, suite: SuiteResult, range: Range, supply: Supply, p: Progress,
                           ghost outcome: Outcome, ghost existing: map<string, string>, ghost kept: seq<Planned>)
    returns (output: SuiteOutput, draws: nat, ok: bool)
    requires Good(outcome, existing, supply, Whole(ctx, supply), kept, p, []) && kept != []
    ensures !ctx.strict ==> ok
    ensures Reliable(supply) ==> (ok <==> (ctx.strict && ctx.attachments ==> suite.hooksImportable))
    ensures ok ==> Reconciled(outcome, existing, Drawn(supply, draws), Whole(ctx, supply), kept, p.results, output)
    ensures ok ==> SuiteContainersLast(output.containers, range)
  {
    var uuid := supply(p.draws);
    draws := p.draws + 1;
    output, ok := SuiteOutput(StableSort(Earlier, p.results), StableSort(SmallerUuid, p.containers)), true;
    if uuid.None? || HooksFail(ctx, suite.hooksImportable) {
      ok := !ctx.strict;
      if ok {
        FinishWithoutContainer(outcome, existing, supply, kept, p);
        SortKeepsNoSuite(p.containers, range);
      }
      return;
    }
    var container := Container(uuid.value, SuiteHooks, Uuids(p.results), range.start, range.stop);
    output := SuiteOutput(output.results, StableSort(SmallerUuid, p.containers + [container]));
    Finish(outcome, existing, supply, Whole(ctx, supply), kept, p, container);
    SortKeepsSuiteRange(p.containers, container, range);
  }

  const NIL_SUITE_KEY := "protocol:nil-suite"

  method MapSuite(ctx: Context, suite: Option<SuiteResult>, now: Instant, live: map<string, LiveInfo>,
                  existing: map<string, string>, supply: Supply, ghost used: set<string>)
    returns (output: SuiteOutput, draws: nat, ok: bool, ghost emitted: seq<Artifact>, ghost kept: seq<Planned>)
    requires Fresh(supply, used)
    ensures Reliable(supply) ==>
              (ok <==> suite.None? || IsSuiteImportable(ctx, OutcomeIn(ctx), suite.value,
                                                        SpecPlannerOf(ctx, SuiteRange(suite.value, now), live)))
    ensures Reliable(supply) && (suite.None? || !ctx.strict) ==> ok
    ensures suite.None? && ok ==>
      && supply(0).Some?
      && output ==
         SuiteOutput([Artifact(NIL_SUITE_KEY,
                               SyntheticResult(ctx, NIL_SUITE_KEY, Broken, MillisOf(now), supply(0).value))], [])
    ensures suite.Some? && ok ==>
      && IsDelivered(ctx, suite.value, now, live, existing, kept) &&
         (Whole(ctx, supply) ==> kept == Plan(ctx, suite.value, now, live))
      && Reconciled(OutcomeIn(ctx), existing, Drawn(supply, draws), Whole(ctx, supply), kept, emitted, output)
  {
    if suite.None? {
      output, draws, ok, emitted, kept := SuiteOutput([], []), 1, supply(0).Some?, [], [];
      if ok {
        output := SuiteOutput([Artifact(NIL_SUITE_KEY,
                                        SyntheticResult(ctx, NIL_SUITE_KEY, Broken, MillisOf(now),
                                                        supply(0).value))], []);
      }
      return;
    }
    OutcomeInMaps(ctx);
    output, draws, ok, emitted, kept := RunSuite(ctx, suite.value, now, live, existing, supply, OutcomeIn(ctx), used);
  }

  // ---------------------------------------------------------------- what follows for every suite

  lemma KeptIsNoLonger(existing: map<string, string>, kept: seq<Planned>, plan: seq<Planned>)
    requires IsKept(existing, kept, plan)
    ensures |kept| <= |plan| && forall p <- kept :: p in plan
  {
    assert multiset(plan) == multiset(kept) + (multiset(plan) - multiset(kept));
    assert |multiset(plan)| == |multiset(kept)| + |multiset(plan) - multiset(kept)|;
    forall p | p in kept ensures p in plan {
      assert p in multiset(kept) && p in multiset(plan);
    }
  }

  /** What the result of an entry tells, field by field. */
  ghost predicate TellsEntry(ctx: Context, p: Planned, r: TestResult) {
    match p
    case Synthetic(key, status, at) =>
      && r.status == status && r.start == r.stop == at && r.steps == [] && r.parameters == []
      && r.fullName == Base(ctx.root) + "::[synthetic]::" + key && r.testCaseId == ctx.digest(r.fullName)
      && r.historyText == HistoryText(r.testCaseId, []) && r.stream == 0 == r.runner
    case Attempt(_, file, item, scenario, retry, live, table) =>
      && Range(r.start, r.stop) == live.range && r.stream == live.stream && r.runner == live.runner
      && r.status == ScenarioStatus(scenario)
      && r.fullName == CanonicalOf(ctx, file, item, scenario) && r.testCaseId == ctx.digest(r.fullName)
      && r.historyText == HistoryOf(ctx, file, item, scenario, table)
      && ShowsRow(ctx, RowOf(item), table, PromotedColumns(ctx, scenario), retry, r.parameters)
      && IsGrouped(Config(ctx.maxDepth, ctx.strict && ctx.attachments),
                   [Section("Context", ctx.contextMode, scenario.contexts),
                    Section("Steps", GroupedSteps, scenario.items),
                    Section("Teardown", ctx.teardownMode, scenario.teardown)],
                   live.range.start, live.range, r.steps)
  }

  lemma OutcomeTells(ctx: Context, p: Planned, uuid: string, r: TestResult)
    requires OutcomeIn(ctx)(p, uuid) == Some(r)
    ensures TellsEntry(ctx, p, r)
  {
    match p
    case Synthetic(_, _, _) =>
    case Attempt(_, file, item, scenario, retry, live, table) =>
      HistoryOfResult(ctx, file, item, scenario, retry, live, uuid, true, table, r);
      FieldsOfResult(ctx, file, item, scenario, retry, live, uuid, true, table, r);
  }

  /** Every result of a delivered suite tells the entry it stands for. */
  lemma ResultsTellEntries(ctx: Context, existing: map<string, string>, drawn: set<string>, whole: bool,
                           kept: seq<Planned>, emitted: seq<Artifact>, output: SuiteOutput, i: nat)
    requires Reconciled(OutcomeIn(ctx), existing, drawn, whole, kept, emitted, output) && i < |kept|
    ensures i < |emitted| && emitted[i].key == kept[i].key && TellsEntry(ctx, kept[i], emitted[i].result)
    ensures emitted[i] in output.results
  {
    assert Realizes(OutcomeIn(ctx), existing, emitted[i], kept[i]);
    OutcomeTells(ctx, kept[i], emitted[i].result.uuid, emitted[i].result);
    assert emitted[i] in multiset(output.results);
  }

  /** A suite without anything to report is broken if it failed, and skipped otherwise. */
  lemma EmptySuiteReports(ctx: Context, suite: SuiteResult, now: Instant, live: map<string, LiveInfo>,
                          existing: map<string, string>, drawn: set<string>, whole: bool, kept: seq<Planned>,
                          emitted: seq<Artifact>, output: SuiteOutput)
    requires IsDelivered(ctx, suite, now, live, existing, kept) && Evidence(suite.specs) == 0
    requires Reconciled(OutcomeIn(ctx), existing, drawn, whole, kept, emitted, output)
    ensures |output.results| == 1 && output.results[0].key == "suite:empty"
    ensures output.results[0].result.status == if suite.failed then Broken else Skipped
    ensures output.results[0].result.start == output.results[0].result.stop ==
      Resolve(suite.timestamp, suite.duration, now).start
  {
    var range := SuiteRange(suite, now);
    var plan := PlanSpecs(SpecPlannerOf(ctx, range, live), suite.specs, 0);
    PlanConserves(ctx, suite.specs, 0, range, live);
    if kept != [] && IsKept(existing, kept, plan) {
      KeptIsNoLonger(existing, kept, plan);
      assert false;
    }
    ResultsTellEntries(ctx, existing, drawn, whole, kept, emitted, output, 0);
    assert |multiset(output.results)| == |multiset(emitted)|;
  }

  /** At least one result, at most one for each piece of evidence, and exactly one when no UUID is missing. */
  lemma ResultsConserveEvidence(ctx: Context, suite: SuiteResult, now: Instant, live: map<string, LiveInfo>,
                                existing: map<string, string>, drawn: set<string>, whole: bool, kept: seq<Planned>,
                                emitted: seq<Artifact>, output: SuiteOutput)
    requires IsDelivered(ctx, suite, now, live, existing, kept) && (whole ==> kept == Plan(ctx, suite, now, live))
    requires Reconciled(OutcomeIn(ctx), existing, drawn, whole, kept, emitted, output)
    ensures 1 <= |output.results| <= Max(Evidence(suite.specs), 1)
    ensures whole ==> |output.results| == Max(Evidence(suite.specs), 1)
  {
    var range := SuiteRange(suite, now);
    PlanConserves(ctx, suite.specs, 0, range, live);
    assert |multiset(output.results)| == |multiset(emitted)|;
    var plan := PlanSpecs(SpecPlannerOf(ctx, range, live), suite.specs, 0);
    if IsKept(existing, kept, plan) {
      KeptIsNoLonger(existing, kept, plan);
    }
  }

  lemma {:induction false} ChildIsListed(containers: seq<Container>, c: Container, child: string)
    requires c in containers && child in c.children
    ensures child in Children(containers, c.scope)
  {
    if containers[0] != c {
      ChildIsListed(containers[1..], c, child);
    }
  }

  lemma {:induction false} AttemptsAreResults(plan: seq<Planned>, results: seq<Artifact>)
    requires |plan| == |results|
    ensures forall uuid <- AttemptUuids(plan, results) :: uuid in Uuids(results)
  {
    if plan != [] {
      AttemptsAreResults(plan[1..], results[1..]);
    }
  }

  lemma {:induction false} UuidsListResults(results: seq<Artifact>, uuid: string)
    ensures uuid in Uuids(results) <==> exists a <- results :: a.result.uuid == uuid
  {
    if results != [] {
      UuidsListResults(results[1..], uuid);
      assert forall a <- results :: a == results[0] || a in results[1..];
    }
  }

  /** No container refers to a result that is not there. */
  lemma ContainersReferToResults(outcome: Outcome, existing: map<string, string>, drawn: set<string>, whole: bool,
                                 plan: seq<Planned>, emitted: seq<Artifact>, output: SuiteOutput, c: Container,
                                 child: string)
    requires Reconciled(outcome, existing, drawn, whole, plan, emitted, output)
    requires c in output.containers && child in c.children
    ensures exists a <- output.results :: a.result.uuid == child
  {
    ChildIsListed(output.containers, c, child);
    assert child in multiset(Children(output.containers, c.scope));
    if c.scope == SuiteHooks {
      assert child in multiset(Uuids(output.results));
      UuidsListResults(output.results, child);
    } else {
      assert child in multiset(AttemptUuids(plan, emitted));
      AttemptsAreResults(plan, emitted);
      UuidsListResults(emitted, child);
      var a :| a in emitted && a.result.uuid == child;
      assert a in multiset(output.results);
    }
  }
}
