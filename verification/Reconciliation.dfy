/** From the final suite to the engine: one attempt, one UUID, one result, one file. */
module Reconciliation {
  import opened Int64
  import opened Wrappers
  import opened Timing
  import opened Identity
  import opened Keys
  import opened ScenarioMapping
  import opened Suite
  import opened SyntheticKeys
  import opened Collector
  import C = CollectorInvariants
  import F = Finalization
  import L = LateEvents
  import LC = LateContents
  import LT = LiveTimes
  import M = SuiteMapping
  import R = EngineRefinement
  import E = Engine

  // ---------------------------------------------------------------- MapSuite as a step of the engine

  predicate IsAttempt(plan: seq<Planned>, emitted: seq<Artifact>, artifact: Artifact) {
    exists i :: 0 <= i < |plan| && i < |emitted| && emitted[i] == artifact && plan[i].Attempt?
  }

  /** The sorted results of a suite, each told apart as attempt or synthetic. */
  function Finals(plan: seq<Planned>, emitted: seq<Artifact>, results: seq<Artifact>): (finals: seq<Final>)
    ensures |finals| == |results|
  {
    seq(|results|, i requires 0 <= i < |results| => Final(results[i], IsAttempt(plan, emitted, results[i])))
  }

  lemma TwoPlaces<T>(xs: seq<T>, x: T)
    requires multiset(xs)[x] >= 2
    ensures exists p, q :: 0 <= p < q < |xs| && xs[p] == x && xs[q] == x
  {
    var p :| 0 <= p < |xs| && xs[p] == x;
    assert xs == xs[..p] + [x] + xs[p + 1..];
    assert x in multiset(xs[..p]) || x in multiset(xs[p + 1..]);
    if x in xs[..p] {
      var o :| 0 <= o < p && xs[..p][o] == x;
      assert xs[o] == x;
    } else {
      var q :| 0 <= q < |xs| - p - 1 && xs[p + 1..][q] == x;
      assert xs[p + 1 + q] == x;
    }
  }

  /** Two places of a permutation come from two different places of the original. */
  lemma DifferentOrigins<T>(xs: seq<T>, ys: seq<T>, i: nat, j: nat) returns (p: nat, q: nat)
    requires multiset(xs) == multiset(ys) && i < j < |ys|
    ensures p < |xs| && q < |xs| && p != q && xs[p] == ys[i] && xs[q] == ys[j]
  {
    assert ys[i] in multiset(xs) && ys[j] in multiset(xs);
    if ys[i] == ys[j] {
      M.DuplicateCounts(ys, i, j);
      TwoPlaces(xs, ys[i]);
      p, q :| 0 <= p < q < |xs| && xs[p] == ys[i] && xs[q] == ys[i];
    } else {
      p :| 0 <= p < |xs| && xs[p] == ys[i];
      q :| 0 <= q < |xs| && xs[q] == ys[j];
    }
  }

  /** Whether the artifact keeps the UUID registered for its key; the engine and MapSuite agree on which do. */
  predicate Keeps(existing: map<string, string>, final: Final) {
    final.attempt && final.artifact.key in existing
  }

  ghost predicate Delivered(outcome: M.Outcome, existing: map<string, string>, drawn: set<string>, plan: seq<Planned>,
                            emitted: seq<Artifact>, results: seq<Artifact>) {
    && M.Describes(outcome, existing, drawn, plan, emitted)
    && multiset(results) == multiset(emitted)
    && "" !in existing.Values
  }

  lemma OriginOfFinal(outcome: M.Outcome, existing: map<string, string>, drawn: set<string>, plan: seq<Planned>,
                      emitted: seq<Artifact>, results: seq<Artifact>, i: nat, p: nat)
    requires Delivered(outcome, existing, drawn, plan, emitted, results)
    requires i < |results| && p < |plan| && emitted[p] == results[i]
    requires !Keeps(existing, Finals(plan, emitted, results)[i])
    ensures !M.Reuses(existing, plan[p])
  {
  }

  lemma KeptUuid(outcome: M.Outcome, existing: map<string, string>, drawn: set<string>, plan: seq<Planned>,
                 emitted: seq<Artifact>, results: seq<Artifact>, i: nat)
    requires Delivered(outcome, existing, drawn, plan, emitted, results)
    requires i < |results| && Keeps(existing, Finals(plan, emitted, results)[i])
    ensures results[i].result.uuid == existing[results[i].key]
  {
  }

  /** What MapSuite delivers on the copied UUIDs is a step the engine's state machine allows. */
  lemma SuiteFitsSnapshot(outcome: M.Outcome, existing: map<string, string>, supply: M.Supply, issued: set<string>,
                          draws: nat, plan: seq<Planned>, emitted: seq<Artifact>, results: seq<Artifact>)
    requires M.Fresh(supply, issued) && Delivered(outcome, existing, M.Drawn(supply, draws), plan, emitted, results)
    ensures FitsSnapshot(existing, issued, Finals(plan, emitted, results))
  {
    var finals := Finals(plan, emitted, results);
    forall i | 0 <= i < |finals| && Keeps(existing, finals[i])
      ensures results[i].result.uuid == existing[results[i].key]
    {
      KeptUuid(outcome, existing, M.Drawn(supply, draws), plan, emitted, results, i);
    }
    forall i | 0 <= i < |finals| && !Keeps(existing, finals[i])
      ensures results[i].result.uuid !in issued && results[i].result.uuid != ""
    {
      assert results[i] in multiset(emitted);
      var p :| 0 <= p < |emitted| && emitted[p] == results[i];
      OriginOfFinal(outcome, existing, M.Drawn(supply, draws), plan, emitted, results, i, p);
    }
    forall i, j | 0 <= i < j < |finals| && !Keeps(existing, finals[i]) && !Keeps(existing, finals[j])
      ensures results[i].result.uuid != results[j].result.uuid
    {
      var p, q := DifferentOrigins(emitted, results, i, j);
      OriginOfFinal(outcome, existing, M.Drawn(supply, draws), plan, emitted, results, i, p);
      OriginOfFinal(outcome, existing, M.Drawn(supply, draws), plan, emitted, results, j, q);
      assert emitted[if p < q then p else q].result.uuid != emitted[if p < q then q else p].result.uuid;
    }
  }

  // ---------------------------------------------------------------- repeated keys

  /** Only registered keys come twice in the plan. */
  predicate PlanRepeatsRegistered(existing: map<string, string>, plan: seq<Planned>) {
    forall i, j :: 0 <= i < j < |plan| && plan[i].key == plan[j].key ==> plan[i].key in existing
  }

  /** Mapping and sorting neither add nor lose a repeated key. */
  lemma RepeatsComeFromThePlan(outcome: M.Outcome, existing: map<string, string>, drawn: set<string>,
                               plan: seq<Planned>, emitted: seq<Artifact>, results: seq<Artifact>)
    requires Delivered(outcome, existing, drawn, plan, emitted, results)
    ensures F.RepeatsAreRegistered(existing, Finals(plan, emitted, results), {}, |results|) <==>
            PlanRepeatsRegistered(existing, plan)
  {
    var finals := Finals(plan, emitted, results);
    assert forall p :: 0 <= p < |plan| ==> M.Realizes(outcome, existing, emitted[p], plan[p]);
    if PlanRepeatsRegistered(existing, plan) {
      forall i: nat, j: nat | i < j < |results| && results[i].key == results[j].key ensures results[i].key in existing {
        var p, q := DifferentOrigins(emitted, results, i, j);
        assert plan[if p < q then p else q].key == plan[if p < q then q else p].key;
      }
    }
    if F.RepeatsAreRegistered(existing, finals, {}, |results|) {
      forall i, j | 0 <= i < j < |plan| && plan[i].key == plan[j].key ensures plan[i].key in existing {
        var p, q := DifferentOrigins(results, emitted, i, j);
        assert finals[if p < q then p else q].artifact.key == finals[if p < q then q else p].artifact.key;
      }
    }
  }

  // ---------------------------------------------------------------- end to end

  /**
   * What MapSuite makes of this suite on an engine state: the results of `plan`, the suite's plan up to attempts that
   * found no UUID.
   */
  ghost predicate MappedOn(ctx: Context, suite: SuiteResult, now: Instant, before: Shared, drawn: set<string>,
                           plan: seq<Planned>, emitted: seq<Artifact>, output: SuiteOutput, finals: seq<Final>) {
    && M.IsDelivered(ctx, suite, now, before.live, before.uuids, plan)
    && M.Reconciled(M.OutcomeIn(ctx), before.uuids, drawn, false, plan, emitted, output)
    && finals == Finals(plan, emitted, output.results)
  }

  /** The key owns this result: in the map under the UUID registered for the key, and in the file of that UUID. */
  predicate IsTheResult(s: State, key: string, result: TestResult) {
    && C.Registered(s, key, result.uuid)
    && result.uuid in s.shared.results && s.shared.results[result.uuid] == result
    && F.IsOnDisk(s.files, result)
  }

  /** Entries with a registered key are attempts. */
  ghost predicate RegisteredAreAttempts(uuids: map<string, string>, plan: seq<Planned>) {
    forall i :: 0 <= i < |plan| && plan[i].key in uuids ==> plan[i].Attempt?
  }

  lemma ProperKeysAreAttempts(ctx: Context, uuids: map<string, string>, plan: seq<Planned>)
    requires IsDistinctFromErrors(ctx) && HasProperKeys(ctx, plan) && (forall k <- uuids :: IsAttemptKey(ctx, k))
    ensures RegisteredAreAttempts(uuids, plan)
  {
    forall i | 0 <= i < |plan| && plan[i].key in uuids ensures plan[i].Attempt? {
      if plan[i].Synthetic? {
        assert plan[i] in plan;
        SyntheticKeysAreNoAttempts(ctx, plan[i].key);
      }
    }
  }

  lemma SyntheticKeysStayApart(uuids: map<string, string>, plan: seq<Planned>, emitted: seq<Artifact>,
                               results: seq<Artifact>)
    requires RegisteredAreAttempts(uuids, plan) && |plan| == |emitted| && multiset(results) == multiset(emitted)
    requires forall p :: 0 <= p < |plan| ==> emitted[p].key == plan[p].key
    ensures F.SyntheticKeysAreNew(uuids, Finals(plan, emitted, results))
  {
    var finals := Finals(plan, emitted, results);
    forall i | 0 <= i < |finals| && !finals[i].attempt ensures finals[i].artifact.key !in uuids {
      assert results[i] in multiset(emitted);
      var p :| 0 <= p < |emitted| && emitted[p] == results[i];
    }
  }

  /** The file of the final artifact of this key could be written. */
  predicate IsStored(s: State, key: string) {
    LC.IsWrittenFor(s, key, |s.output|)
  }

  /** The entry whose artifact was written last for its key. */
  predicate IsWinner(s: State, artifact: Artifact) {
    exists k: nat :: k < |s.output| && LC.IsLastFor(s, artifact.key, |s.output|, k) && s.output[k].artifact == artifact
  }

  lemma WinnerOf(s: State, plan: seq<Planned>, emitted: seq<Artifact>, results: seq<Artifact>, key: string)
    returns (j: nat, k: nat)
    requires |plan| == |emitted| && (forall p :: 0 <= p < |plan| ==> emitted[p].key == plan[p].key)
    requires multiset(results) == multiset(emitted) && s.output == Finals(plan, emitted, results) && IsStored(s, key)
    ensures j < |plan| && plan[j].key == key && IsWinner(s, emitted[j])
    ensures k < |s.output| && LC.IsLastFor(s, key, |s.output|, k) && s.output[k].artifact == emitted[j]
  {
    k := F.LastOfWritten(F.KeysOf(s.output), s.unwritten, |s.output|, key);
    assert LC.IsLastFor(s, key, |s.output|, k) && results[k] in multiset(emitted);
    j :| j < |emitted| && emitted[j] == results[k];
  }

  /** A run in which Finalize is over and has mapped this suite on the state it copied. */
  ghost predicate IsOver(sys: System, run: seq<State>, n: nat, ctx: Context, suite: SuiteResult, now: Instant,
                         drawn: set<string>, plan: seq<Planned>, emitted: seq<Artifact>, output: SuiteOutput) {
    && IsRun(sys, run) && n < |run| && run[n].snapshot.Some? && F.NobodyFinalizes(run[n])
    && MappedOn(ctx, suite, now, run[n].snapshot.value.shared, drawn, plan, emitted, output, run[n].output)
  }

  /** Besides, all lifecycle events come from the project the suite is about. */
  ghost predicate IsFinal(sys: System, run: seq<State>, n: nat, ctx: Context, suite: SuiteResult, now: Instant,
                          drawn: set<string>, plan: seq<Planned>, emitted: seq<Artifact>, output: SuiteOutput) {
    && IsOver(sys, run, n, ctx, suite, now, drawn, plan, emitted, output)
    && IsDistinctFromErrors(ctx) && OnlyAttempts(ctx, sys)
  }

  ghost predicate OnlyAttempts(ctx: Context, sys: System) {
    forall i :: 0 <= i < |sys.calls| && sys.calls[i].ScenarioCall? ==> IsAttemptKey(ctx, sys.calls[i].request.key)
  }

  /**
   * No scenario call ran beside Finalize; or those that did were for registered attempts, and all events for `key` had
   * been handled when Finalize took its copy, in state `m`.
   */
  ghost predicate IsCalm(sys: System, run: seq<State>, m: nat, n: nat, key: string)
    requires n < |run|
  {
    F.Undisturbed(sys, run[n]) || (IsBesideKnown(sys, run, m, n) && LC.IsQuietFor(sys, run[m], key))
  }

  ghost predicate IsBesideKnown(sys: System, run: seq<State>, m: nat, n: nat)
    requires n < |run|
  {
    L.CopiedAt(run, m) && m <= n && |run[m].phases| == |sys.calls| == |run[n].phases| &&
      L.OnlyKnownAttempts(sys, run[m])
  }

  lemma Delivery(ctx: Context, existing: map<string, string>, drawn: set<string>, plan: seq<Planned>,
                 emitted: seq<Artifact>, output: SuiteOutput)
    requires M.Reconciled(M.OutcomeIn(ctx), existing, drawn, false, plan, emitted, output) && "" !in existing.Values
    ensures Delivered(M.OutcomeIn(ctx), existing, drawn, plan, emitted, output.results)
    ensures |plan| == |emitted| && forall p :: 0 <= p < |plan| ==>
              emitted[p].key == plan[p].key &&
                M.OutcomeIn(ctx)(plan[p], emitted[p].result.uuid) == Some(emitted[p].result)
  {
  }

  lemma FinalKeysAreUsable(sys: System, run: seq<State>, n: nat, ctx: Context, suite: SuiteResult, now: Instant,
                           drawn: set<string>, plan: seq<Planned>, emitted: seq<Artifact>, output: SuiteOutput)
    requires IsFinal(sys, run, n, ctx, suite, now, drawn, plan, emitted, output)
    ensures L.HasNewSynthetics(run[n])
    ensures Delivered(M.OutcomeIn(ctx), run[n].snapshot.value.shared.uuids, drawn, plan, emitted, output.results)
    ensures |plan| == |emitted| && forall p :: 0 <= p < |plan| ==> emitted[p].key == plan[p].key
    ensures RegisteredAreAttempts(run[n].snapshot.value.shared.uuids, plan)
  {
    var base := run[n].snapshot.value;
    var existing := base.shared.uuids;
    var m := F.CopyOfAnEarlierState(sys, run, n);
    C.LiveStateIsConsistent(sys, run, m);
    C.RegisteredKeysAreRequested(sys, run, m);
    PlanHasProperKeys(ctx, suite, now, base.shared.live, existing, plan);
    Delivery(ctx, existing, drawn, plan, emitted, output);
    ProperKeysAreAttempts(ctx, existing, plan);
    SyntheticKeysStayApart(existing, plan, emitted, output.results);
  }

  lemma KeyIsReconciled(sys: System, run: seq<State>, m: nat, n: nat, key: string)
    requires IsRun(sys, run) && n < |run| && F.NobodyFinalizes(run[n]) && L.HasNewSynthetics(run[n])
    requires IsCalm(sys, run, m, n, key)
    ensures LC.IsReconciledFor(run[n].snapshot.value, run[n], key)
  {
    if F.Undisturbed(sys, run[n]) {
      F.FinalizeReconciles(sys, run, n);
      F.RunReconciles(sys, run, n);
      LC.ReconciledForEach(run[n].snapshot.value, run[n], key);
    } else {
      LC.QuietKeysAreReconciled(sys, run, m, n, key);
    }
  }

  /** Which UUID and which result an entry of the suite gets. */
  lemma EntryIsMapped(outcome: M.Outcome, existing: map<string, string>, drawn: set<string>, plan: seq<Planned>,
                      emitted: seq<Artifact>, results: seq<Artifact>, i: nat)
    requires Delivered(outcome, existing, drawn, plan, emitted, results) && i < |plan|
    ensures i < |emitted| && emitted[i].key == plan[i].key
    ensures outcome(plan[i], emitted[i].result.uuid) == Some(emitted[i].result)
    ensures plan[i].Attempt? && plan[i].key in existing ==> emitted[i].result.uuid == existing[plan[i].key]
  {
    assert M.Realizes(outcome, existing, emitted[i], plan[i]);
    assert plan[i].key in existing ==> existing[plan[i].key] in existing.Values;
  }

  /**
   * Every key of the final suite ends up with one result, in the map and on disk: that of the entry `j` written last
   * for it, which is the only one if the suite names the key once; or what it had, if no file for it could be written.
   */
  lemma OneAttemptOneResult(sys: System, run: seq<State>, m: nat, n: nat, ctx: Context, suite: SuiteResult,
                            now: Instant, drawn: set<string>, plan: seq<Planned>, emitted: seq<Artifact>,
                            output: SuiteOutput, i: nat)
    returns (j: nat)
    requires IsFinal(sys, run, n, ctx, suite, now, drawn, plan, emitted, output)
    requires i < |plan| && IsCalm(sys, run, m, n, plan[i].key)
    ensures i < |emitted| && M.OutcomeIn(ctx)(plan[i], emitted[i].result.uuid) == Some(emitted[i].result)
    ensures plan[i].Attempt? && plan[i].key in run[n].snapshot.value.shared.uuids ==>
              emitted[i].result.uuid == run[n].snapshot.value.shared.uuids[plan[i].key]
    ensures if IsStored(run[n], plan[i].key)
            then && j < |plan| == |emitted| && plan[j].key == plan[i].key && IsWinner(run[n], emitted[j])
                 && IsTheResult(run[n], plan[i].key, emitted[j].result)
            else && LC.HasMapsAsBefore(run[n].snapshot.value, run[n], plan[i].key)
                 && LC.HasFileAsBefore(run[n].snapshot.value, run[n], plan[i].key)
  {
    var base := run[n].snapshot.value;
    FinalKeysAreUsable(sys, run, n, ctx, suite, now, drawn, plan, emitted, output);
    KeyIsReconciled(sys, run, m, n, plan[i].key);
    EntryIsMapped(M.OutcomeIn(ctx), base.shared.uuids, drawn, plan, emitted, output.results, i);
    j := 0;
    if IsStored(run[n], plan[i].key) {
      var k;
      j, k := WinnerOf(run[n], plan, emitted, output.results, plan[i].key);
      assert F.IsHeld(run[n].shared, run[n].output[k].artifact) &&
        F.IsOnDisk(run[n].files, run[n].output[k].artifact.result);
    }
  }

  /** No result is without a key exactly if only registered keys come twice in the plan, when all files were written. */
  lemma OneOwnerExactly(sys: System, run: seq<State>, m: nat, n: nat, ctx: Context, suite: SuiteResult, now: Instant,
                        drawn: set<string>, plan: seq<Planned>, emitted: seq<Artifact>, output: SuiteOutput)
    requires IsFinal(sys, run, n, ctx, suite, now, drawn, plan, emitted, output)
    requires F.Undisturbed(sys, run[n]) || IsBesideKnown(sys, run, m, n)
    ensures F.KeysOwnResults(run[n]) <==>
            F.RepeatsAreRegistered(run[n].snapshot.value.shared.uuids, run[n].output, run[n].unwritten, |run[n].output|)
    ensures run[n].unwritten == {} ==>
              (F.KeysOwnResults(run[n]) <==> PlanRepeatsRegistered(run[n].snapshot.value.shared.uuids, plan))
  {
    FinalKeysAreUsable(sys, run, n, ctx, suite, now, drawn, plan, emitted, output);
    RepeatsComeFromThePlan(M.OutcomeIn(ctx), run[n].snapshot.value.shared.uuids, drawn, plan, emitted, output.results);
    if F.Undisturbed(sys, run[n]) {
      F.KeysOwnResultsExactly(sys, run, n);
    } else {
      LC.KeysOwnResultsBesideKnownEvents(sys, run, m, n);
    }
  }

  /** Beside events for registered attempts, the key of every stored entry has the winner's UUID and a result. */
  lemma OneAttemptOneEntry(sys: System, run: seq<State>, m: nat, n: nat, ctx: Context, suite: SuiteResult, now: Instant,
                           drawn: set<string>, plan: seq<Planned>, emitted: seq<Artifact>, output: SuiteOutput, i: nat)
    returns (j: nat)
    requires IsFinal(sys, run, n, ctx, suite, now, drawn, plan, emitted, output)
    requires i < |plan| && IsBesideKnown(sys, run, m, n) && IsStored(run[n], plan[i].key)
    ensures j < |plan| == |emitted| && plan[j].key == plan[i].key && IsWinner(run[n], emitted[j])
    ensures C.Registered(run[n], plan[i].key, emitted[j].result.uuid)
    ensures emitted[j].result.uuid in run[n].shared.results
  {
    var k;
    FinalKeysAreUsable(sys, run, n, ctx, suite, now, drawn, plan, emitted, output);
    j, k := WinnerOf(run[n], plan, emitted, output.results, plan[i].key);
    LC.LastArtifactHasResult(sys, run, m, n, plan[i].key, k);
  }

  // ---------------------------------------------------------------- live events and suite entries meet

  /**
   * The attempt has the key and the retry index of its scenario, and the lifecycle data of its key where there is any.
   */
  ghost predicate HasItsKey(ctx: Context, live: map<string, LiveInfo>, p: Planned) {
    p.Attempt? ==>
      && p.retry == RetryIndex(p.scenario.retriesCount) && p.key == KeyOf(ctx, p.file, p.item, p.scenario, p.retry)
      && (p.key in live ==> p.live == live[p.key])
  }

  ghost predicate SeedsFit(seeder: Seeder, seeds: seq<Seed>) {
    forall s <- seeds :: s == seeder(s.item, s.scenario)
  }

  lemma {:induction false} SeedsComeFromSeeder(seeder: Seeder, items: seq<Option<SpecItem>>)
    requires forall item, scenario :: seeder(item, scenario).item == item && seeder(item, scenario).scenario == scenario
    ensures SeedsFit(seeder, Seeds(seeder, items))
  {
    if items != [] {
      SeedsComeFromSeeder(seeder, items[1..]);
    }
  }

  lemma {:induction false} TimedKeepsSeeds(spec: Spec, seeds: seq<Seed>, cursor: int64, specRange: Range,
                                           live: map<string, LiveInfo>)
    ensures forall p <- Timed(spec, seeds, cursor, specRange, live) ::
              && p.Attempt? && p.file == spec.file && Seed(p.key, p.item, p.scenario, p.retry) in seeds
              && (p.key in live ==> p.live == live[p.key])
  {
    if seeds != [] {
      TimedKeepsSeeds(spec, seeds[1..], Max(cursor, LiveOf(seeds[0], cursor, specRange, live).range.stop), specRange,
                      live);
    }
  }

  lemma {:induction false} ErrorsAreSynthetic(namer: ErrorNamer, errors: seq<Option<GaugeError>>, index: nat, at: int64)
    ensures forall p <- PlanErrors(namer, errors, index, at) :: p.Synthetic?
  {
    if errors != [] {
      ErrorsAreSynthetic(namer, errors[1..], index + 1, at);
    }
  }

  lemma ContentHasItsKeys(ctx: Context, spec: Spec, errors: seq<Option<GaugeError>>, at: int64, specRange: Range,
                          live: map<string, LiveInfo>)
    ensures forall p <- PlanContent(ctx, spec, errors, at, specRange, live) :: HasItsKey(ctx, live, p)
  {
    var seeder := SeederOf(ctx, spec);
    ErrorsAreSynthetic(ErrorNamerOf(ctx, spec), errors, 0, at);
    SeedsComeFromSeeder(seeder, spec.items);
    TimedKeepsSeeds(spec, Seeds(seeder, spec.items), specRange.start, specRange, live);
    forall p | p in Timed(spec, Seeds(seeder, spec.items), specRange.start, specRange, live)
      ensures HasItsKey(ctx, live, p)
    {
      assert Seed(p.key, p.item, p.scenario, p.retry) == seeder(p.item, p.scenario);
    }
  }

  lemma {:induction false} SpecsHaveTheirKeys(ctx: Context, specs: seq<Option<SpecResult>>, index: nat,
                                              suiteRange: Range, live: map<string, LiveInfo>)
    ensures forall p <- PlanSpecs(SpecPlannerOf(ctx, suiteRange, live), specs, index) :: HasItsKey(ctx, live, p)
  {
    if specs != [] {
      SpecsHaveTheirKeys(ctx, specs[1..], index + 1, suiteRange, live);
      match specs[0]
      case Some(SpecResult(Some(spec), errors, timestamp, duration)) =>
        ContentHasItsKeys(ctx, spec, errors, if timestamp.Some? then MillisOf(timestamp.value) else suiteRange.start,
                          Resolve(timestamp, duration, At(suiteRange.start)), live);
      case _ =>
    }
  }

  lemma PlanHasItsKeys(ctx: Context, suite: SuiteResult, now: Instant, live: map<string, LiveInfo>,
                       existing: map<string, string>, plan: seq<Planned>)
    requires M.IsDelivered(ctx, suite, now, live, existing, plan)
    ensures forall p <- plan :: HasItsKey(ctx, live, p)
  {
    var all := PlanSpecs(SpecPlannerOf(ctx, SuiteRange(suite, now), live), suite.specs, 0);
    SpecsHaveTheirKeys(ctx, suite.specs, 0, SuiteRange(suite, now), live);
    if M.IsKept(existing, plan, all) {
      M.KeptIsNoLonger(existing, plan, all);
    }
  }

  /** What two reports of one attempt share: the scenario's identity and its table rows. */
  predicate SameScenario(item: SpecItem, scenario: Scenario, item': SpecItem, scenario': Scenario) {
    && item.file == item'.file && SpecRow(item) == SpecRow(item') && ScenarioRow(item) == ScenarioRow(item')
    && scenario.id == scenario'.id && scenario.heading == scenario'.heading
    && scenario.start == scenario'.start && scenario.end == scenario'.end
  }

  lemma SameScenarioSameKey(ctx: Context, file: string, item: SpecItem, scenario: Scenario, item': SpecItem,
                            scenario': Scenario, retry: int32)
    requires SameScenario(item, scenario, item', scenario')
    ensures KeyOf(ctx, file, item, scenario, retry) == KeyOf(ctx, file, item', scenario', retry)
  {
  }

  /**
   * The attempt a lifecycle event reported with zero-based `retry` is the suite entry with `retry + 1` attempts
   * as soon as both file names canonicalise alike, however much the two reports differ otherwise.
   */
  lemma EventMeetsEntry(ctx: Context, suite: SuiteResult, now: Instant, live: map<string, LiveInfo>, p: Planned,
                        file: string, item: SpecItem, scenario: Scenario, retry: int32)
    requires p in PlanSpecs(SpecPlannerOf(ctx, SuiteRange(suite, now), live), suite.specs, 0) && p.Attempt?
    requires SameScenario(item, scenario, p.item, p.scenario)
    requires PathOf(ctx, file, p.item) == PathOf(ctx, p.file, p.item)
    requires 0 <= retry && p.scenario.retriesCount == retry + 1
    ensures p.key == KeyOf(ctx, file, item, scenario, retry)
    ensures p.key in live ==> p.live == live[p.key]
  {
    SpecsHaveTheirKeys(ctx, suite.specs, 0, SuiteRange(suite, now), live);
    assert HasItsKey(ctx, live, p);
    SameScenarioSameKey(ctx, file, item, scenario, p.item, p.scenario, retry);
    KeysAgreeExactly(ctx, file, p.file, p.item, p.scenario, retry);
  }

  /** An attempt of the suite that has a live UUID is never lost, whatever the UUID generator does. */
  lemma LiveAttemptsAreKept(ctx: Context, suite: SuiteResult, now: Instant, live: map<string, LiveInfo>,
                            existing: map<string, string>, plan: seq<Planned>, p: Planned)
    requires M.IsDelivered(ctx, suite, now, live, existing, plan)
    requires p in PlanSpecs(SpecPlannerOf(ctx, SuiteRange(suite, now), live), suite.specs, 0) && M.Reuses(existing, p)
    ensures p in plan
  {
    var all := PlanSpecs(SpecPlannerOf(ctx, SuiteRange(suite, now), live), suite.specs, 0);
    assert p in multiset(all) && multiset(all) - multiset([]) == multiset(all);
    if M.IsKept(existing, plan, all) {
      assert p !in multiset(all) - multiset(plan);
    }
  }

  lemma LiveIsCopied(sys: System, run: seq<State>, n: nat, key: string)
    requires IsRun(sys, run) && n < |run| && run[n].snapshot.Some? && key in run[n].snapshot.value.shared.uuids
    ensures key in run[n].snapshot.value.shared.live
  {
    var m := F.CopyOfAnEarlierState(sys, run, n);
    C.LiveStateIsConsistent(sys, run, m);
  }

  /** The suite's report of the attempt that a lifecycle event reported under `key`. */
  ghost predicate IsEntryOf(ctx: Context, suite: SuiteResult, now: Instant, before: Shared, p: Planned, key: string,
                            file: string, item: SpecItem, scenario: Scenario, retry: int32) {
    && p in PlanSpecs(SpecPlannerOf(ctx, SuiteRange(suite, now), before.live), suite.specs, 0) && p.Attempt?
    && SameScenario(item, scenario, p.item, p.scenario) && PathOf(ctx, file, p.item) == PathOf(ctx, p.file, p.item)
    && 0 <= retry && p.scenario.retriesCount == retry + 1
    && key == KeyOf(ctx, file, item, scenario, retry) && key in before.uuids
  }

  lemma EntryIsPlanned(ctx: Context, suite: SuiteResult, now: Instant, before: Shared, plan: seq<Planned>, p: Planned,
                       key: string, file: string, item: SpecItem, scenario: Scenario, retry: int32) returns (i: nat)
    requires M.IsDelivered(ctx, suite, now, before.live, before.uuids, plan) && "" !in before.uuids.Values
    requires IsEntryOf(ctx, suite, now, before, p, key, file, item, scenario, retry)
    ensures i < |plan| && plan[i] == p && p.key == key && (key in before.live ==> p.live == before.live[key])
  {
    EventMeetsEntry(ctx, suite, now, before.live, p, file, item, scenario, retry);
    assert before.uuids[key] in before.uuids.Values;
    LiveAttemptsAreKept(ctx, suite, now, before.live, before.uuids, plan, p);
    i :| i < |plan| && plan[i] == p;
  }

  /** Every entry for a registered attempt gets the live UUID and the live times. */
  lemma LiveEntry(ctx: Context, suite: SuiteResult, now: Instant, before: Shared, drawn: set<string>,
                  plan: seq<Planned>, emitted: seq<Artifact>, results: seq<Artifact>, key: string, q: nat)
    requires M.IsDelivered(ctx, suite, now, before.live, before.uuids, plan)
    requires Delivered(M.OutcomeIn(ctx), before.uuids, drawn, plan, emitted, results)
    requires q < |plan| && plan[q].Attempt? && plan[q].key == key && key in before.uuids && key in before.live
    ensures q < |emitted| && IsLive(before, key, emitted[q].result)
  {
    PlanHasItsKeys(ctx, suite, now, before.live, before.uuids, plan);
    EntryIsMapped(M.OutcomeIn(ctx), before.uuids, drawn, plan, emitted, results, q);
    var p := plan[q];
    assert p in plan && HasItsKey(ctx, before.live, p);
    HistoryOfResult(ctx, p.file, p.item, p.scenario, p.retry, p.live, emitted[q].result.uuid, true, p.table,
                    emitted[q].result);
  }

  /** The result has the UUID, the times and the place that the lifecycle event registered for the key. */
  predicate IsLive(before: Shared, key: string, result: TestResult) {
    && key in before.uuids && result.uuid == before.uuids[key]
    && key in before.live && Range(result.start, result.stop) == before.live[key].range
    && result.stream == before.live[key].stream && result.runner == before.live[key].runner
  }

  /**
   * UUID, times, stream and runner are those of the event that registered the key: the times of its mapped result,
   * corrected by the start event recorded for it.
   */
  ghost predicate IsFromTheEvent(sys: System, run: seq<State>, n: nat, key: string, result: TestResult) {
    exists m: nat, i: nat, now: int64, mapped: TestResult, live: TestResult
      {:trigger LT.RegistersAt(sys, run, m, i, now, mapped, live)} ::
      && m < n && LT.RegistersAt(sys, run, m, i, now, mapped, live) && sys.calls[i].request.key == key
      && result.uuid == live.uuid && result.start == live.start && result.stop == live.stop
      && result.stream == sys.calls[i].request.stream && result.runner == sys.calls[i].request.runner
  }

  lemma LiveIsFromTheEvent(sys: System, run: seq<State>, n: nat, key: string, result: TestResult)
    requires IsRun(sys, run) && n < |run| && run[n].snapshot.Some?
    requires IsLive(run[n].snapshot.value.shared, key, result)
    ensures IsFromTheEvent(sys, run, n, key, result)
  {
    var c := F.CopyOfAnEarlierState(sys, run, n);
    var m, i, now, mapped, live := LT.LiveTimesComeFromTheEvent(sys, run, c, key);
    assert LT.RegistersAt(sys, run, m, i, now, mapped, live);
  }

  /**
   * A streamed attempt and its suite entries become one result: that of the entry `j` written last, under the UUID and
   * with the times the lifecycle event registered, in the map and in the file, whatever the file names were written
   * like. If that file could not be written, the live result and file are still there.
   */
  lemma LiveAttemptBecomesFinal(sys: System, run: seq<State>, m: nat, n: nat, ctx: Context, suite: SuiteResult,
                                now: Instant, drawn: set<string>, plan: seq<Planned>, emitted: seq<Artifact>,
                                output: SuiteOutput, p: Planned, key: string, file: string, item: SpecItem,
                                scenario: Scenario, retry: int32)
    returns (i: nat, j: nat)
    requires IsFinal(sys, run, n, ctx, suite, now, drawn, plan, emitted, output) && IsCalm(sys, run, m, n, key)
    requires IsEntryOf(ctx, suite, now, run[n].snapshot.value.shared, p, key, file, item, scenario, retry)
    ensures i < |plan| == |emitted| && plan[i] == p && IsLive(run[n].snapshot.value.shared, key, emitted[i].result)
    ensures IsFromTheEvent(sys, run, n, key, emitted[i].result)
    ensures if IsStored(run[n], key)
            then && j < |plan| && plan[j].key == key && IsWinner(run[n], emitted[j])
                 && IsLive(run[n].snapshot.value.shared, key, emitted[j].result)
                 && IsFromTheEvent(sys, run, n, key, emitted[j].result)
                 && IsTheResult(run[n], key, emitted[j].result)
            else && LC.HasMapsAsBefore(run[n].snapshot.value, run[n], key)
                 && LC.HasFileAsBefore(run[n].snapshot.value, run[n], key)
  {
    var before := run[n].snapshot.value.shared;
    F.RunReconciles(sys, run, n);
    FinalKeysAreUsable(sys, run, n, ctx, suite, now, drawn, plan, emitted, output);
    LiveIsCopied(sys, run, n, key);
    i := EntryIsPlanned(ctx, suite, now, before, plan, p, key, file, item, scenario, retry);
    LiveEntry(ctx, suite, now, before, drawn, plan, emitted, output.results, key, i);
    LiveIsFromTheEvent(sys, run, n, key, emitted[i].result);
    j := OneAttemptOneResult(sys, run, m, n, ctx, suite, now, drawn, plan, emitted, output, i);
    if IsStored(run[n], key) {
      LiveEntry(ctx, suite, now, before, drawn, plan, emitted, output.results, key, j);
      LiveIsFromTheEvent(sys, run, n, key, emitted[j].result);
    }
  }

  // ---------------------------------------------------------------- the conditions are met

  /** The state in which Finalize finds the engine after one streamed event. */
  function AfterEvent(request: Request, mapped: TestResult): Shared {
    E.EndedShared(Shared(map[], map[], map[], map[], false), true, request, mapped, 0, true)
  }

  lemma EventFirst(request: Request, mapped: TestResult) returns (run: seq<State>)
    requires mapped.uuid != ""
    ensures IsRun(L.EventAndFinalize(request), run)
    ensures var s := run[|run| - 1];
            && s.shared == AfterEvent(request, mapped) && s.phases == [Finished, Idle] && s.issued == {mapped.uuid}
            && s.snapshot.None? && !s.late && s.unwritten == {}
  {
    var start := State(Shared(map[], map[], map[], map[], false), map[], [Idle, Idle], {}, None, [], {}, 0, false);
    run := R.ScenarioEndingIsARun(L.EventAndFinalize(request), start, 0, request, mapped, (uuid: string) => None, 0,
                                  true);
  }

  lemma FinalizeThen(request: Request, mapped: TestResult, finals: seq<Final>) returns (run: seq<State>)
    requires mapped.uuid != "" && FitsSnapshot(map[request.key := mapped.uuid], {mapped.uuid}, finals)
    ensures IsRun(L.EventAndFinalize(request), run)
    ensures var s := run[|run| - 1];
            && F.Undisturbed(L.EventAndFinalize(request), s) && F.NobodyFinalizes(s)
            && s.snapshot.value.shared == AfterEvent(request, mapped) && s.output == finals && s.unwritten == {}
  {
    run := EventFirst(request, mapped);
    var s := run[|run| - 1];
    assert s.shared.uuids == map[request.key := mapped.uuid];
    var storable := (i: nat) => true;
    var rest := R.FinalizeIsARun(L.EventAndFinalize(request), s, 1, finals, storable);
    assert E.Unwritable(storable, |finals|) == {};
    run := R.PathsJoin(L.EventAndFinalize(request), run, rest);
  }

  lemma MappedSuiteFits(ctx: Context, suite: SuiteResult, now: Instant, before: Shared, supply: M.Supply,
                        issued: set<string>, draws: nat, plan: seq<Planned>, emitted: seq<Artifact>,
                        output: SuiteOutput, finals: seq<Final>)
    requires MappedOn(ctx, suite, now, before, M.Drawn(supply, draws), plan, emitted, output, finals)
    requires M.Fresh(supply, issued) && "" !in before.uuids.Values
    ensures FitsSnapshot(before.uuids, issued, finals)
  {
    Delivery(ctx, before.uuids, M.Drawn(supply, draws), plan, emitted, output);
    SuiteFitsSnapshot(M.OutcomeIn(ctx), before.uuids, supply, issued, draws, plan, emitted, output.results);
  }

  /** Streaming one event and then finalising any suite that MapSuite delivers is a run the results above speak of. */
  lemma EventThenFinalize(ctx: Context, request: Request, mapped: TestResult, suite: SuiteResult, now: Instant,
                          supply: M.Supply, draws: nat, plan: seq<Planned>, emitted: seq<Artifact>, output: SuiteOutput,
                          finals: seq<Final>)
    returns (run: seq<State>)
    requires mapped.uuid != "" && M.Fresh(supply, {mapped.uuid})
    requires MappedOn(ctx, suite, now, AfterEvent(request, mapped), M.Drawn(supply, draws), plan, emitted, output,
                      finals)
    ensures run != []
    ensures IsOver(L.EventAndFinalize(request), run, |run| - 1, ctx, suite, now, M.Drawn(supply, draws), plan, emitted,
                   output)
    ensures F.Undisturbed(L.EventAndFinalize(request), run[|run| - 1]) && run[|run| - 1].unwritten == {}
    ensures run[|run| - 1].snapshot.value.shared == AfterEvent(request, mapped)
  {
    assert AfterEvent(request, mapped).uuids == map[request.key := mapped.uuid];
    MappedSuiteFits(ctx, suite, now, AfterEvent(request, mapped), supply, {mapped.uuid}, draws, plan, emitted, output,
                    finals);
    run := FinalizeThen(request, mapped, finals);
  }
}

