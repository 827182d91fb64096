# Verified model of gauge-allure-report

gauge-allure-report receives Gauge lifecycle callbacks while a test run is going on and one final suite message when it
is over, and turns both into Allure result files. A streamed scenario result has to become the final result of the same
attempt: same UUID, same file, no second entry. This project models the five components that make this work and proves
what they promise, up to that end-to-end statement.

* **Engine** (`Collector`, `CollectorInvariants`, `CollectorFiles`, `CollectorContents`, `LiveTimes`, `Finalization`,
  `LateEvents`, `LateContents`, `Engine`, `EngineRefinement`). `Collector` is a state machine: each critical section under the engine's
  mutex and each unlocked gap of `ScenarioEnding`, `Finalize` and `FinalizeInterrupted` is one step, calls interleave
  freely, writes may fail, and start events come and go. The other modules prove invariants over all its runs. `Engine`
  is the class with its fields and methods; its contracts use the functions the state machine uses, and
  `EngineRefinement` shows that a method running alone is a run of the state machine.
* **Mapper** (`Timing`, `Status`, `StepTree`, `StepTreeTiming`, `StepTreeShape`, `Parameters`, `ScenarioMapping`,
  `Sorting`, `Suite`, `SuiteMapping`). Times are `int64` with wrap-around. Each loop of the source is a method proved
  equal to a function, or against a plan of the suite, and the properties are proved about those.
* **Identity** (`Text`, `Identity`, `Keys`). Canonical paths, attempt keys and the text history ids are hashed from.
* **Writer** (`ArtifactNames`, `Writer`, `Prepare`, `Environment`). Temporary files and atomic replacement as a
  small-step protocol of any number of concurrent calls, guarded cleaning, and the properties printer with a reader that
  inverts it.
* **Tags** (`Tags`). The backslash automaton behind `key:value` tags.

`SyntheticKeys` and `Reconciliation` put them together: the suite the mapper delivers is a step the engine can take, and
afterwards each attempt owns one UUID, one result and one file. `EndToEnd` runs `MapSuite` and the engine in whole
sessions in which the conditions of these results are met.

Where the code keeps a promise only under a condition, the condition is stated and, where it can be, shown to be exact:

* Streaming, files and results agree in every interleaving, before Finalize and after an undisturbed one, if and only if
  no attempt is reported twice; two events for one attempt are harmless as long as their writing does not overlap.
* Events handled after Finalize has copied the registry keep UUIDs and results in order if and only if they are for
  attempts that were registered by then. Another event can leave its attempt with two UUIDs and two files.
* Beside such events, an attempt ends with its final result in every continuation if and only if its own events had all
  been handled when the registry was copied.
* Every result belongs to a key if and only if no unregistered key comes twice among the final artifacts written.
  Entries for a registered attempt share its UUID, and the last one written wins.
* Readers see whole files, whatever is written under a list of names, if and only if no name can be the temporary file
  of another.
* A synthetic result can get the key of an attempt if and only if the project is called "error", or "error:" followed by
  what reads as the start of a file name or of an error.
* The hashed history text determines the parameters if and only if it can be read from the front, with no '=' in names
  and no NUL in values, or from the back, with no '=' in values and no NUL in names.
* Fallback times follow each other inside their spec if and only if every fallback starts inside it and no sum wraps,
  whatever live data lies between.
* A scenario is lost if and only if strict mode copies attachments and those of some step at the top level of a
  mapped section cannot be imported. With UUIDs at hand a suite is mapped if and only if everything strict mode insists
  on can be imported.
* In one file, scenarios share an identity if and only if their ids agree, or, without ids, their lines and the words of
  their headings; an id meets a scenario without one if it spells out lines and heading. Scenarios of two files can
  share one if and only if one path, continued by the separator, leads into the other.
* At the project root "/", absolute and relative names agree if and only if the file lies right below the root or its
  name looks like a drive.

Conventions: protocol messages that may be nil are `Option`s; errors are `None` or an `ok` flag; SHA-256, the UUID
generator, clocks, parsed timestamps and pattern matching are parameters. `dafny verify dfyconfig.toml` checks everything.

## Model

| member | source | states |
|---|---|---|
| Timing.Resolve | internal/timing/timing.go:16-33 | the range starts at the parsed timestamp, or at the fallback, and runs forward for every duration, also where the sum wraps; then it is empty |
| Timing.Clamp | internal/timing/timing.go:36-47 | the clamped child runs forward, starts no earlier than a non-zero parent start and ends no later than a non-zero parent stop unless it starts after it; a child that is inside already stays as it is |
| Status.FromExecutionStatus | internal/status/status.go:30-47 | exactly which inputs give passed, skipped and failed; a skip reason wins over everything |
| Status.FromStep | internal/status/status.go:50-75 | exactly which steps are passed, skipped and failed, nil parts included; all others are broken |
| Status.WorstConcat | internal/mapping/mapping.go:902-916 | the aggregate of a concatenation is the worse of the aggregates |
| Status.WorstExactly | internal/mapping/mapping.go:902-916 | broken beats failed beats skipped; exactly the lists without any of them pass |
| Status.WorstOfPrefix | internal/mapping/mapping.go:902-916 | one more step makes the aggregate the worse of the old one and the step |
| Status.WorstDependsOnOccurrence | internal/mapping/mapping.go:902-916 | the aggregate depends only on which statuses occur, so neither order nor repetition matters |
| Status.AggregateStepStatus | internal/mapping/mapping.go:902-916 | the loop with its early return computes the maximum under passed < skipped < failed < broken |
| StepTree.RunMapItem | internal/mapping/mapping.go:395-421 | one step or concept, recursion included, equals the reference mapping |
| StepTree.RunMapItems | internal/mapping/mapping.go:368-425 | the item loop with its cursor, skips, depth marker and early error equals the reference mapping, and terminates |
| StepTree.RunScenarioSteps | internal/mapping/mapping.go:332-366 | the section loop with fixtures, flat and grouped modes equals the reference mapping |
| StepTreeShape.MapItemsMirror | internal/mapping/mapping.go:368-425 | names, statuses and structure at every depth: a step without children has the status of its own execution; a concept keeps its own unless that passed, and then has the worst of its children; the marker is broken |
| StepTreeShape.TreeIsUnique | internal/mapping/mapping.go:368-425 | that relation fixes the whole tree but its times |
| StepTreeShape.AllPassedExactly | internal/mapping/mapping.go:406-413 | items whose steps and concepts all passed within the depth limit give a tree that passed throughout; without strict imports only such items do |
| StepTreeTiming.MapItemsLast | internal/mapping/mapping.go:396-405 | at every depth a step or concept lasts what its execution result reports, at least 1 ms, cut at the end of its parent |
| StepTreeTiming.StepRangeLength | internal/mapping/mapping.go:402-405 | a step lasts its duration, at least 1 ms, cut at its parent's end, also where the sum wraps |
| StepTreeTiming.MapItemsTiles | internal/mapping/mapping.go:368-425 | siblings abut exactly, children tile a prefix of their parent, and the returned cursor is the last stop |
| StepTreeTiming.TiledWithin | internal/mapping/mapping.go:368-425 | a tiled forest nests: every node at every depth runs forward inside its parent |
| StepTreeTiming.NestingExactly | internal/timing/timing.go:36-47 | all step lists nest in the parent if and only if cursor and parent satisfy the stated bounds |
| StepTreeTiming.ZeroStopDoesNotBound | internal/timing/timing.go:40-42 | a parent stop of zero bounds nothing: concrete steps leave the parent |
| StepTreeTiming.NegativeStartEscapes | internal/timing/timing.go:36-47 | a range that crosses zero from below does not contain its steps: concrete items leave it |
| StepTreeTiming.SectionsTile | internal/mapping/mapping.go:344-365 | the groups of a scenario tile its range across all sections |
| StepTreeTiming.ScenarioStepsNest | internal/mapping/mapping.go:332-366 | groups run in order without gaps and nest at every depth; in every combination of modes each grouped section is one group with its name, its aggregate status, its steps and their exact hull, and a flat section is its steps |
| StepTreeTiming.GroupsHug | internal/mapping/mapping.go:344-365 | walking sections and groups together, in every combination of modes: a grouped section with steps is one group that starts with its first step and ends with its last, a flat one contributes exactly its steps, the others nothing |
| StepTreeShape.MapItemsPrunes | internal/mapping/mapping.go:368-425 | names and structure of the tree are the input pruned to items with a step, in order, cut by one marker below the depth limit |
| StepTreeShape.PrunedIsUnique | internal/mapping/mapping.go:368-425 | the pruned tree is determined by the input |
| StepTreeShape.ErrorsAreTopLevel | internal/mapping/mapping.go:409 | mapping succeeds if and only if imports are not strict, the depth limit is passed, or the attachments of every step at the top level can be imported; errors below concepts are swallowed |
| StepTreeShape.ImportableKeepsAll | internal/mapping/mapping.go:414-420 | without strict imports, or when all attachments can be imported, nothing is cut short |
| StepTreeShape.HeightIsBounded | internal/mapping/mapping.go:369-371 | no tree is higher than the nesting limit plus two, whatever the input depth |
| StepTreeShape.MapItemsPassHonestly | internal/mapping/mapping.go:406-413 | a passed node has only passed children, so a truncated concept is never passed |
| StepTreeShape.HonestyIsTransitive | internal/mapping/mapping.go:406-413 | below passed nodes everything is passed at every depth |
| StepTreeShape.SectionsPassHonestly | internal/mapping/mapping.go:344-365 | the same across the groups of a scenario |
| StepTreeShape.PassedScenarioGroups | internal/mapping/mapping.go:361-363 | a passed group of a scenario has only passed descendants |
| Identity.RunCanonicalPath | internal/identity/identity.go:38-71 | the reassigned name and the segment stack compute the canonical path function |
| Identity.RunResolve | internal/identity/identity.go:55-67 | the segment loop resolves "", "." and ".." as a stack that never climbs above its start |
| Identity.UpUndoesDown | internal/identity/identity.go:60-63 | a segment and the ".." behind it leave no trace, wherever they stand |
| Identity.CanonicalPathShape | internal/identity/identity.go:38-71 | the result is "." if and only if the name is the root itself, otherwise a slash-joined list of ordinary segments |
| Identity.BelowCheckout | internal/identity/identity.go:41-49 | below an absolute cleaned root only the rest of the name counts |
| Identity.CheckoutIndependent | internal/identity/identity.go:36-37 | the path of a file is the same for every such checkout |
| Identity.CheckoutInAnyCase | internal/identity/identity.go:42-48 | the root counts as such in whatever case it is written |
| Identity.OrdinaryRootsAreCheckouts | internal/identity/identity.go:41-47 | every absolute root made of ordinary segments is such a checkout |
| Identity.AbsoluteAgreesWithRelative | internal/identity/identity.go:38-71 | absolute and project-relative names of one file canonicalise alike |
| Identity.BackslashesAreSlashes | internal/identity/identity.go:39 | backslashes in a name count as slashes |
| Identity.DriveExactly | internal/identity/identity.go:51-53 | which names look like a drive |
| Identity.OutsideKeepsBaseOnly | internal/identity/identity.go:51-53 | an absolute name of a file outside the project keeps only its last element |
| Identity.DotSlashIsDropped | internal/identity/identity.go:50 | a "./" in front is dropped before the name is looked at |
| Identity.RelativeRootsNeverMatch | internal/identity/identity.go:41 | no name belongs to a project that is given as "." or not at all |
| Identity.OrdinaryIsCanonical | internal/identity/identity.go:38-71 | canonicalising leaves a slash-joined list of ordinary segments as it is, in every checkout |
| Identity.CanonicalPathsExactly | internal/identity/identity.go:38-71 | for an absolute root, the canonical paths that occur are exactly the slash-joined lists of ordinary segments, and "." where the root has a name of its own |
| Identity.RootDirectoryKeepsBaseOnly | internal/identity/identity.go:41-54 | the exception: checked out at "/", an absolute name keeps only its last element |
| Identity.RootDirectoryAgreesExactly | internal/identity/identity.go:41-54 | there, absolute and relative name of an ordinary path agree if and only if it has one segment or looks like a drive |
| Identity.RootDirectoryLosesDirectories | internal/identity/identity.go:41-54 | the concrete case: "/a/b" becomes "b" where "a/b" stays |
| Keys.AttemptKeyInjective | internal/identity/identity.go:104-106 | the key determines canonical text, both rows and retry, whatever the text contains |
| Keys.RetryIndex | internal/mapping/mapping.go:1011-1019 | the attempt count becomes a non-negative 32-bit index |
| Keys.RetriesMeetExactly | internal/mapping/mapping.go:1009-1019 | live and final keys meet exactly for equal identities and matching counts, the clamped ends included |
| Keys.IdentityDeterminesPath | internal/identity/identity.go:74-84 | scenario identities that differ in the path alone are different |
| Keys.ShownProjectExactly | internal/identity/identity.go:75-78 | an identity starts with the words of the project name, one space between any two, or "Gauge project" if it has none |
| Keys.NormalizeTextExactly | internal/identity/identity.go:113-115 | normalised texts are equal if and only if they hold the same words |
| Keys.StableNamesAgreeExactly | internal/identity/identity.go:79-82 | exactly when two scenarios go by one name: equal trimmed ids; without ids equal lines and heading words; an id that spells out lines and heading |
| Keys.IdentityTellsScenarios | internal/identity/identity.go:74-84 | in one file of one project, identities are equal if and only if that holds |
| Keys.PathsMeetExactly | internal/identity/identity.go:83 | scenarios of two files can share an identity if and only if one path, with the separator and a character that is no space behind it, leads into the other |
| Keys.RunHistoryText | internal/identity/identity.go:91-101 | the builder loop produces the history text |
| Keys.HistoryTextInjective | internal/identity/identity.go:91-101 | the hashed text determines test case id and ordered parameters when names hold no '=' and values no NUL, or values no '=' and names no NUL |
| Keys.HistoryTextCollisions | internal/identity/identity.go:94-99 | four pairs of different parameter lists that share a text |
| Keys.HistoryTextExactly | internal/identity/identity.go:91-101 | for every choice of where '=' and NUL may occur, in names and in values: different lists always have different texts if and only if one of those two conditions holds |
| Keys.ParameterTextGrows | internal/identity/identity.go:94-99 | every parameter lengthens the hashed text |
| Parameters.PrivateParameter | internal/mapping/mapping.go:663-678 | which policy excludes, hides and masks a name, what is shown then, and that private values enter identity only as a digest |
| Parameters.TableColumnsExactly | internal/mapping/mapping.go:542-571 | which cells become parameters: the own cells of the row, else those at its index in the scenario table; for a row of the specification those at its index in the table of the specification; none when an index is out of range; each under its header, or its position where that is missing or blank |
| Parameters.CellsAreUnique | internal/mapping/mapping.go:542-563 | these cells and headers are determined by the row |
| Parameters.FinalNameExactly | internal/mapping/mapping.go:572-575 | a name is kept for its first column; the n-th column of a name gets the suffix _n |
| Parameters.RunParameters | internal/mapping/mapping.go:564-582 | the loop with its name counters yields the shown and the logical parameters column by column |
| Parameters.ParametersExactly | internal/mapping/mapping.go:567-581 | one parameter for each column, in order, under its name and with the value its policy lets through |
| Parameters.LogicalAt | internal/mapping/mapping.go:576-580 | a column that is not excluded enters the history under its name, behind the columns before it that do, with its value or the digest of a private one |
| Parameters.DifferenceShows | internal/mapping/mapping.go:576-580 | rows that differ in a column that is neither excluded nor private have different logical lists, whatever follows |
| Parameters.ArgumentsExactly | internal/mapping/mapping.go:618-634 | arguments are collected in order, those inside a concept before its own |
| Parameters.PromotedAt | internal/mapping/mapping.go:634-653 | exactly the arguments with a promoted name, in order, each with its value and named by its name and its position among them |
| Parameters.ArgumentNameExactly | internal/mapping/mapping.go:639 | the position names an argument only if its own name is blank |
| Parameters.LogicalIgnoresPolicy | internal/mapping/mapping.go:576-580 | values of excluded parameters, and private values beyond their digest, do not enter the history |
| Parameters.NothingLogicalExactly | internal/mapping/mapping.go:576-580 | a row leaves no trace in the history if and only if all its columns are excluded |
| ScenarioMapping.IdentitiesAgreeExactly | internal/mapping/mapping.go:298-308 | two file names give one identity if and only if they canonicalise alike |
| ScenarioMapping.ProjectExactly | internal/mapping/mapping.go:302 | the project is the first name of the environment that is not blank, or else the directory it is in |
| ScenarioMapping.KeysTellAttempts | internal/mapping/mapping.go:234-235 | reports that name one file have one key if and only if they are of one scenario with the same two rows and the same retry |
| ScenarioMapping.KeysAgreeExactly | internal/mapping/mapping.go:156-158 | live key with zero-based retry equals final key with an attempt count exactly when paths and counts match |
| ScenarioMapping.AbsoluteEventMeetsRelativeSuite | internal/mapping/mapping.go:298-308 | an absolute event name and a relative suite name meet in one key |
| ScenarioMapping.ScenarioStatus | internal/mapping/mapping.go:310-330 | exactly when a scenario is skipped, passed and failed; a failed one needs an assertion or verification failure in its first failed step, everything else is broken |
| ScenarioMapping.FindFailureExactly | internal/mapping/mapping.go:875-900 | the search finds the first failed execution in order, however deep it is nested, and nothing only if none failed |
| ScenarioMapping.PromotedInOrder | internal/mapping/mapping.go:656-659 | arguments are promoted from contexts, then the steps of the scenario, then teardown |
| ScenarioMapping.SpecRowsDiffer | internal/mapping/mapping.go:559-561 | scenarios on two rows of the table of the specification that differ in a column that is neither excluded nor private have different logical parameters |
| ScenarioMapping.RunScenarioParameters | internal/mapping/mapping.go:244-251 | the collected parameters are the cells the row takes, each under its header or position, then the promoted arguments, then the retry mark; the logical ones those of row and arguments |
| ScenarioMapping.RunMapScenario | internal/mapping/mapping.go:229-296 | mapping one scenario step by step equals the reference result |
| ScenarioMapping.FieldsOfResult | internal/mapping/mapping.go:253-291 | the fields of a result: identity and its digest, status, parameters cell by cell, and steps section by section |
| ScenarioMapping.ScenarioFailsExactly | internal/mapping/mapping.go:286-290 | a scenario is lost if and only if strict mode copies attachments and those of some step at the top level of a mapped section cannot be imported |
| ScenarioMapping.MapLiveScenario | internal/mapping/mapping.go:80-96 | fails only for lack of a scenario or a UUID; key, UUID, time range, stream, runner, status, parameters and history are those of the event |
| ScenarioMapping.HistoryIsStable | internal/mapping/mapping.go:244-284 | the history text does not depend on retry, stream, runner, range, UUID or excluded values, across table and promoted parameters |
| ScenarioMapping.LiveHistoryAgreesExactly | internal/mapping/mapping.go:94 | live and final history agree if and only if the row is not from the spec's table or all its columns are excluded |
| ScenarioMapping.ResultStepsNest | internal/mapping/mapping.go:286-291 | the steps of a result tile its own range |
| ScenarioMapping.BestEffortMaps | internal/mapping/mapping.go:286-290 | no scenario is lost in best-effort mode, nor in any mode without attachments |
| Sorting.StableSortSorts | internal/mapping/mapping.go:219-225 | the sort is a sorted permutation for every strict weak order |
| Sorting.StableSortKeepsTies | internal/mapping/mapping.go:219 | elements of a kind of which none is less than another stay in their order |
| Sorting.SortedIsUnique | internal/output/writer.go:159 | under a total order a multiset has one sorted list, so map iteration order cannot show |
| Sorting.StringLessIsOrder | internal/mapping/mapping.go:221 | byte-wise string comparison is a strict total order |
| Sorting.StringLessExactly | internal/mapping/mapping.go:221 | one text is less than another if and only if it is smaller at the first position where they differ, or a proper prefix |
| Suite.PlanConserves | internal/mapping/mapping.go:107-198 | one planned result for each nil spec, missing proto spec, reported error and executed scenario |
| Suite.SpecAt | internal/mapping/mapping.go:107-198 | what a specification result contributes stands behind the contributions of those before it |
| Suite.GapEntry | internal/mapping/mapping.go:108-126 | a missing specification result, or one without specification, is one broken entry under its index, at the start of the suite |
| Suite.SpecEntries | internal/mapping/mapping.go:127-189 | the entries of a specification are its reported errors, at its time or else that of the suite, and then its attempts, inside its own range |
| Suite.AttemptEntry | internal/mapping/mapping.go:148-167 | each executed scenario has its entry behind those before it: its item, scenario, key, retry and table, and the time of its lifecycle data, or one that follows the latest stop before it |
| Suite.ErrorAt | internal/mapping/mapping.go:127-144 | the entry of the n-th error stands behind those of the errors before it: its key, broken, at the time of its specification |
| Suite.SpecTableExactly | internal/mapping/mapping.go:948-958 | a table-driven specification has the table of its first table item that has one, no other has a table |
| Suite.Executed | internal/mapping/mapping.go:829-844 | the items the loop does not skip, each with its scenario: plain and table-driven ones |
| Suite.FallbackRunsForwardExactly | internal/mapping/mapping.go:161-165 | a fallback range runs forward if and only if the cursor is inside the spec and the sum does not wrap |
| Suite.FallbacksFitExactly | internal/mapping/mapping.go:145-167 | all fallback ranges of a spec lie inside it and follow each other if and only if each starts while the cursor is inside the spec and its duration does not wrap; live data of any kind may lie between |
| Suite.FallbacksDoNotOverlap | internal/mapping/mapping.go:145-167 | fallback ranges lie inside the spec and follow each other without overlap when all times fit, a consequence of the exact condition |
| Suite.LateLiveDataBreaksFallbacks | internal/mapping/mapping.go:162-167 | after live data that ends past its spec the next fallback range runs backwards |
| SuiteMapping.OutcomeInMaps | internal/mapping/mapping.go:168-176 | mapping keeps the UUID it is given and only strict mode loses attempts |
| SuiteMapping.SuiteOrders | internal/mapping/mapping.go:219-225 | both comparison functions are strict weak orders |
| SuiteMapping.FixtureStepsFailExactly | internal/mapping/mapping.go:181-188 | fixture sections fail if and only if strict mode copies attachments and those of some step at their top level cannot be imported |
| SuiteMapping.RunAttempt | internal/mapping/mapping.go:156-188 | one attempt adds one result under a reused or new UUID and one container of it alone; without a UUID best effort drops just the attempt, or just the container |
| SuiteMapping.RunItems | internal/mapping/mapping.go:148-189 | the item loop with its cursor realises the planned attempts in order, except those that found no UUID |
| SuiteMapping.RunSynthetic | internal/mapping/mapping.go:108-126 | one synthetic result under a new UUID; it fails exactly when the generator does |
| SuiteMapping.RunErrors | internal/mapping/mapping.go:127-144 | one broken result for each reported error, or failure |
| SuiteMapping.RunSpecContainer | internal/mapping/mapping.go:190-197 | the spec container lists exactly the attempts of its spec; without a UUID best effort drops just the container |
| SuiteMapping.RunSpec | internal/mapping/mapping.go:107-198 | one specification result realises its part of the plan, except attempts that found no UUID |
| SuiteMapping.RunSpecs | internal/mapping/mapping.go:107-198 | the specification loop realises the whole plan, except attempts that found no UUID |
| SuiteMapping.RunSuiteContainer | internal/mapping/mapping.go:211-226 | the suite container lists every result and spans the suite, or is missing for lack of a UUID; results end up by start, then by key, ties in the order of the plan, and containers by UUID |
| SuiteMapping.RunSuite | internal/mapping/mapping.go:104-226 | a delivered suite is mapped to a reconciled output, the empty one and the one left without results included |
| SuiteMapping.MapSuite | internal/mapping/mapping.go:99-227 | nil suites give one broken result; other suites give results that realise the plan, reuse registered UUIDs, draw distinct new ones, and stand by start, then by key, ties in the order of the plan; only attempts without a registered UUID can be missing, and only if the generator failed in best-effort mode; with UUIDs at hand it succeeds if and only if everything strict mode insists on can be imported |
| SuiteMapping.ResultsTellEntries | internal/mapping/mapping.go:107-188 | every result is that of its entry, field by field |
| SuiteMapping.EmptySuiteReports | internal/mapping/mapping.go:199-210 | a suite without any evidence gives one result, broken if the suite failed and skipped otherwise, at its start |
| SuiteMapping.ResultsConserveEvidence | internal/mapping/mapping.go:107-210 | at least one result and at most one for each piece of evidence; exactly one each when no UUID was missing, or one in all |
| SuiteMapping.ContainersReferToResults | internal/mapping/mapping.go:181-218 | no container refers to a result that is not there, also when containers or attempts were dropped |
| SuiteMapping.UuidsListResults | internal/mapping/mapping.go:106 | the child list holds exactly the UUIDs of the results |
| Tags.RunUnescape | internal/metadata/metadata.go:168-185 | the builder loop with its flag computes the unescaped text, a trailing backslash kept |
| Tags.FirstSeparatorExactly | internal/metadata/metadata.go:148-166 | the cut is the first colon after an even run of backslashes, and only that |
| Tags.SplitTag | internal/metadata/metadata.go:148-166 | the scan with its flag computes that cut, both sides unescaped, trimmed and non-empty |
| Tags.UnescapeUndoesEscape | internal/metadata/metadata.go:168-185 | unescaping inverts escaping for every text |
| Tags.EscapedTextHolds | internal/metadata/metadata.go:148-166 | no colon inside escaped text separates |
| Tags.SplitUndoesEscape | internal/metadata/metadata.go:148-166 | an escaped key and value, joined by a colon, are read back trimmed, and accepted if and only if neither is blank |
| Text.TrimSpaceExactly | internal/metadata/metadata.go:160-161 | trimming takes whitespace off both ends and nothing else |
| Environment.RunSortedKeys | internal/output/writer.go:155-159 | collecting and sorting lists each key of the map once, in order |
| Environment.RunWriteEnvironment | internal/output/writer.go:154-169 | the loop writes one escaped line for each key in order |
| Environment.EncodingIsUnique | internal/output/writer.go:154-169 | the bytes depend on the map alone |
| Environment.UnescapeUndoesEscape | internal/output/writer.go:251-254 | undoing the six escapes inverts them |
| Environment.EscapePropertyExactly | internal/output/writer.go:251-254 | exactly backslash, line breaks, tab, equals sign and colon are escaped, each with a backslash |
| Environment.LineReadsBack | internal/output/writer.go:161-166 | a line is cut at its first unescaped '=' into its key and value |
| Environment.EncodingReadsBack | internal/output/writer.go:154-169 | reading the file gives back exactly the map |
| ArtifactNames.ResultNameInjective | internal/output/writer.go:133-138 | different UUIDs have different result files |
| ArtifactNames.TempNameIsTemp | internal/output/writer.go:198 | a temporary file, random digits behind the name or in place of its last '*', is recognised as one and is longer than the name |
| ArtifactNames.ArtifactNamesAreNotTemp | internal/output/writer.go:126-131 | no published artifact has a temporary name |
| Writer.SafeExactly | internal/output/writer.go:192-194 | names of files in the results directory are the single path segments other than "." and ".." |
| Writer.SizeAcceptedExactly | internal/output/writer.go:214-219 | the announced size is binding, and the configured limit is one for attachments alone |
| Prepare.KnownArtifactExactly | internal/output/writer.go:126-131 | which names cleaning recognises; every other name is spared |
| Writer.ResultsDirectory.Copy | internal/output/writer.go:210 | chunk-wise copying leaves the readable prefix in the temporary file |
| Writer.ResultsDirectory.Write | internal/output/writer.go:188-237 | succeeds exactly when nothing goes wrong and then changes one name to the whole content; a failure changes no published name |
| Writer.RunKeepsInvariant | internal/output/writer.go:188-237 | any number of interleaved calls, none for a name another one uses as its temporary file, keeps temporary files apart and prefixes of their content, and published names whole |
| Writer.ReadersSeeWholeFiles | internal/output/writer.go:188-237 | a name that is no temporary file of these calls always holds its old content or all bytes of one successful call of accepted size |
| Writer.OnlySuccessesPublish | internal/output/writer.go:204-236 | whoever changes a published name ends successfully; failed and abandoned calls change none |
| Writer.ArtifactsStayApart | internal/output/writer.go:126-131 | the program's own artifact names never can be temporary files of one another, whatever digits are drawn |
| Writer.TakenTempIsPublished | internal/output/writer.go:198-236 | a call for the name of another call's temporary file can have its content published under that call's name, starting from an empty directory |
| Writer.ReadersSeeWholeFilesExactly | internal/output/writer.go:188-237 | for every list of names: all runs of all calls with these names show old or whole content under every name that is no temporary file of theirs, if and only if none of the names can be a temporary file of another |
| Writer.DoneIsFinal | internal/output/writer.go:188-237 | a finished call stays finished as it is |
| Writer.AttachmentsAreWhole | internal/output/writer.go:147-152 | an accepted attachment is the whole source, of its announced size, within the limit |
| Prepare.ResultsPath.Clean | internal/output/writer.go:82-89 | the loop removes exactly the regular files recognised as artifacts, or stops at one it cannot remove |
| Prepare.RefusedExactly | internal/output/writer.go:70-81 | cleaning is refused exactly for a directory with an entry of its own that no readable marker claims, unless the caller insists |
| Prepare.ResultsPath.Prepare | internal/output/writer.go:47-95 | exactly when preparation succeeds, what it leaves, and that a refusal removes nothing |
| Prepare.PreparedIsOwned | internal/output/writer.go:71-81 | the next preparation finds the directory owned |
| Prepare.NothingSurvivesARun | internal/output/writer.go:126-131 | cleaning after any run of the writer, killed anywhere, leaves nothing of it |
| Engine.Engine.constructor | internal/collector/collector.go:74-77 | an engine starts empty and not finalized |
| Engine.Engine.RecordStart | internal/collector/collector.go:377-381 | a start event is stored under its key and changes nothing else |
| Engine.Engine.RecordEnd | internal/collector/collector.go:382-386 | an end event removes its key and changes nothing else |
| Engine.Engine.Register | internal/collector/collector.go:150-161 | the result published is the mapped one, corrected: with a recorded start event it starts there, and a stop before that becomes the current time; without one nothing changes; UUID and lifecycle data are registered with these times and the start event is gone |
| Collector.RestartedIsCorrected | internal/collector/collector.go:150-158 | the corrected result runs forward unless the recorded start lies in the future |
| Engine.Engine.ScenarioEnding | internal/collector/collector.go:134-172 | the whole new state: nothing on a mapping error, registered but unpublished when the file fails, otherwise file and result under one UUID, all with the corrected times |
| Engine.Engine.WriteArtifacts | internal/collector/collector.go:237-246 | each artifact that can be written is written and recorded, the others leave no trace |
| Engine.Engine.Finalize | internal/collector/collector.go:193-265 | a second call changes nothing; the first maps the copied state, applies its artifacts and counts the results |
| Engine.Engine.FinalizeInterrupted | internal/collector/collector.go:268-284 | with results only the flag and the summary change; without any it finalises without a suite and counts what that left |
| Engine.Engine.FinishSummary | internal/collector/collector.go:348-374 | the summary counts the engine's results |
| Engine.Count | internal/collector/collector.go:352-369 | counting in any order gives, for each status, the number of results that have it, and the number of parameters named retry |
| Engine.CountRetryMarks | internal/collector/collector.go:363-367 | the inner loop counts the parameters named retry |
| Engine.SummaryAddsUp | internal/collector/collector.go:352-362 | passed, failed, broken and skipped add up to the number of results |
| Engine.Copy | internal/collector/collector.go:417-430 | copying a map yields an equal map |
| CollectorInvariants.StepShape | internal/collector/collector.go:193-207 | only the call that found the flag clear takes the copies; nothing clears the flag |
| CollectorInvariants.StepFinalizesOnce | internal/collector/collector.go:193-207 | every step keeps: one finalising call at most, one mapping of the suite at most |
| CollectorInvariants.ReserveKeepsRegistry | internal/collector/collector.go:140-161 | registering, with or without the unlock and remap window, keeps the registry injective and never changes a registered UUID |
| CollectorInvariants.StepKeepsRegistry | internal/collector/collector.go:134-172 | every step before the snapshot keeps the registry invariant |
| CollectorInvariants.LiveStateIsConsistent | internal/collector/collector.go:134-172 | in every interleaving: UUIDs injective, live data for exactly the registered keys, results only under registered UUIDs |
| CollectorInvariants.UuidsAreWriteOnce | internal/collector/collector.go:141-160 | in every interleaving an attempt keeps the UUID it first got |
| CollectorInvariants.RegisteredKeysAreRequested | internal/collector/collector.go:159-160 | nothing is registered that no event reported |
| CollectorInvariants.FinalizedNeverReverts | internal/collector/collector.go:193-207 | over whole runs the flag never reverts, the copies stay, and the suite is mapped at most once |
| CollectorInvariants.OneCallFinalizes | internal/collector/collector.go:193-284 | at any two moments of a run the finalising call is the same one |
| CollectorInvariants.LateCallsOnlyEnd | internal/collector/collector.go:268-284 | from the moment it sees the flag set such a call can only end |
| CollectorInvariants.LateCallsWriteNothing | internal/collector/collector.go:268-284 | a finalising call that first sees the flag set changes nothing for the rest of the run |
| LiveTimes.LiveTimesComeFromTheEvent | internal/collector/collector.go:150-161 | in every interleaving, the lifecycle data of an attempt is that of the last scenario end that registered it: the times it was mapped with, corrected by the start event recorded at that moment |
| LiveTimes.PublishedWasRegistered | internal/collector/collector.go:150-172 | in every interleaving, each result before Finalize is one that a scenario end registered, with these times |
| CollectorFiles.StepWrites | internal/collector/collector.go:163-171 | a step writes the file of what it publishes next, or publishes what it has written |
| CollectorFiles.FilesAreThePublishedResults | internal/collector/collector.go:163-171 | streaming, every interleaving: whenever no call is between writing and publishing, the result files are exactly those of the results |
| CollectorFiles.NoOrphanFiles | internal/collector/collector.go:237-246 | in either write mode no result file is left that no result owns |
| CollectorContents.FilesHoldTheResults | internal/collector/collector.go:163-171 | any number of events for an attempt: if no two calls at once hold results of one UUID that are written and not yet published, every published result is in its file, except while a call is about to replace it |
| CollectorContents.FilesHoldTheFinalResults | internal/collector/collector.go:237-246 | the same after an undisturbed Finalize, if events did not overlap before it |
| CollectorContents.DifferentAttemptsAgree | internal/collector/collector.go:163-171 | with one event for each attempt, every result file holds the published result in every interleaving |
| CollectorContents.FilesHoldExactly | internal/collector/collector.go:141-171 | streaming, files hold the results in all runs before Finalize if and only if no attempt is reported twice; the same for all runs that end after an undisturbed Finalize |
| CollectorContents.OverlapSplitsFileFromResult | internal/collector/collector.go:141-171 | for any two calls with one attempt key: a run in which they overlap and leave different reports in file and results |
| EngineRefinement.ScenarioEndingIsARun | internal/collector/collector.go:134-172 | the method running alone is a run of its call in the state machine |
| EngineRefinement.FinalizeIsARun | internal/collector/collector.go:193-246 | the same for Finalize, for every pattern of write failures |
| EngineRefinement.InterruptIsARun | internal/collector/collector.go:268-284 | the same for FinalizeInterrupted, in all three cases, mapping errors included |
| Finalization.OverlayHolds | internal/collector/collector.go:237-246 | the entry written last for a key is there, keys without a written entry are untouched, and nothing else appears |
| Finalization.FinalizerProgresses | internal/collector/collector.go:208-246 | at each step of Finalize maps and files are the copied ones with a prefix of the artifacts applied |
| Finalization.CopyOfAnEarlierState | internal/collector/collector.go:199-201 | what Finalize copied is the state of the run just before |
| Finalization.RunReconciles | internal/collector/collector.go:193-246 | this holds in every run with no scenario call beside Finalize |
| Finalization.NoKeyLosesItsUuid | internal/collector/collector.go:243 | no registered key changes its UUID |
| Finalization.EachKeyOwnsItsUuid | internal/collector/collector.go:243 | no two keys share a UUID afterwards |
| Finalization.FinalizeReconciles | internal/collector/collector.go:193-246 | with no scenario call beside Finalize: each key owns one UUID, the final result written last for it replaces the live one in map and file, all others survive unchanged, and when streaming no other result file exists |
| Finalization.KeysOwnResultsExactly | internal/collector/collector.go:237-246 | then every result belongs to a key if and only if every key that comes twice among the written artifacts was registered |
| LateEvents.KnownEventsAreHarmless | internal/collector/collector.go:134-246 | events for attempts the copied registry knows may be handled beside Finalize, and registered keys may come twice: UUIDs stay unique, no key loses its UUID, no result its key, and every written final artifact has a result |
| LateEvents.OwnershipExactly | internal/collector/collector.go:193-246 | from the copy on, in all continuations in which only registered keys come twice, UUIDs stay unique and results owned if and only if every event still to be handled is for an attempt registered by then |
| LateEvents.LateEventGetsSecondUuid | internal/collector/collector.go:193-246 | the concrete run otherwise: one attempt with two UUIDs, two results and two files |
| LateEvents.RepeatedKeyOrphansResult | internal/collector/collector.go:237-246 | for instance: an unregistered key that comes twice keeps the second UUID and leaves the first result without a key |
| LateContents.QuietKeysAreReconciled | internal/collector/collector.go:134-246 | beside such events, an attempt whose own events were handled before ends with the final result written last for it in map and file, or with what it had if none was written |
| LateContents.ReconciledExactlyIfQuiet | internal/collector/collector.go:134-246 | with only events for registered attempts left at the copy: an attempt ends that way in all continuations if and only if all its own events had been handled by then; the failing continuation lets the pending event publish after the final artifact |
| LateContents.KeysOwnResultsBesideKnownEvents | internal/collector/collector.go:237-246 | beside such events too, every result belongs to a key if and only if every key that comes twice among the written artifacts was registered |
| Reconciliation.SuiteFitsSnapshot | internal/mapping/mapping.go:156-180 | what MapSuite delivers is an output the engine's state machine accepts |
| Reconciliation.RepeatsComeFromThePlan | internal/mapping/mapping.go:156-180 | only registered keys come twice among the sorted results if and only if only registered keys come twice in the plan |
| SyntheticKeys.SharedKeysNeedErrorName | internal/mapping/mapping.go:137-138 | if a reported error has the key of an attempt, the project is called "error", or "error:" and the start of a canonical path or of an error |
| SyntheticKeys.ErrorKeysExactly | internal/mapping/mapping.go:135-137 | errors in one file, named by themselves or by their specification, have one key if and only if they stand at the same index with the same line and message |
| SyntheticKeys.SyntheticKeysAreNoAttempts | internal/mapping/mapping.go:104-138 | in every other project no synthetic result has the key of an attempt |
| SyntheticKeys.ErrorProjectCollides | internal/mapping/mapping.go:137-138 | in every such project with an absolute root a reported error and an attempt in a given file share a key |
| SyntheticKeys.SyntheticKeysMeetExactly | internal/mapping/mapping.go:104-138 | hence some synthetic key is an attempt key if and only if the project has such a name, for the absolute roots the program runs with (internal/app/app.go:145-160) |
| SyntheticKeys.PlanHasProperKeys | internal/mapping/mapping.go:107-204 | every synthetic entry of every mapped suite has the key of a reported error or one without a '#' |
| Reconciliation.PlanHasItsKeys | internal/mapping/mapping.go:156-158 | every mapped attempt has the key and retry index of its scenario, and the lifecycle data registered for its key if there is any |
| Reconciliation.EventMeetsEntry | internal/mapping/mapping.go:80-96 | an event with zero-based retry and a suite entry with one attempt more have one key when both file names canonicalise alike |
| Reconciliation.LiveAttemptsAreKept | internal/mapping/mapping.go:168-180 | a suite attempt with a registered UUID is mapped even when the UUID generator fails |
| Reconciliation.OneAttemptOneResult | internal/collector/collector.go:193-246 | every key of the mapped suite ends with one result, in map and file, that of its entry written last, under the live UUID if there was one, or keeps what it had if no file for it could be written; other attempts' events may run beside it |
| Reconciliation.OneOwnerExactly | internal/mapping/mapping.go:168-180 | no result is left without a key if and only if only registered keys come twice in the suite's plan, when all files were written; with failed writes, among the artifacts written |
| Reconciliation.OneAttemptOneEntry | internal/collector/collector.go:193-246 | while events for registered attempts are still handled, the key of every stored entry has the UUID of the entry written last, and a result |
| Reconciliation.EventThenFinalize | internal/collector/collector.go:134-246 | one streamed event followed by Finalize on any suite MapSuite delivers is a run these results speak of |
| Reconciliation.LiveAttemptBecomesFinal | internal/collector/collector.go:134-246 | a streamed attempt and its suite entries become one result, that of the entry written last, under the UUID and with the times the event registered, those of its mapping corrected by its start event; if no file for it could be written, the live result and file are still there |
| EndToEnd.ReportedIsPlanned | internal/mapping/mapping.go:147-156 | every executed scenario of a suite has an entry in its plan |
| EndToEnd.StreamThenFinalize | internal/collector/collector.go:134-246 | a session that streams one event, maps any suite on what that left and finalises it is such a run |
| EndToEnd.StreamedAttemptBecomesFinal | internal/collector/collector.go:134-246 | if the suite reports the streamed attempt, the attempt ends with one result under the streamed UUID, with the streamed times, stream and runner, in map and file |
| EndToEnd.FinalizeOnly | internal/collector/collector.go:193-246 | in a session of any final suite alone every result belongs to a key if and only if no key comes twice in its plan |
| EndToEnd.RepeatedItemOrphansResult | internal/collector/collector.go:237-246 | for instance: a suite that holds one executed item twice leaves a result no key leads to |

## Left out

- CollectorContents.FilesHoldTheResults: the exact condition is about all runs of a set of calls; overlapping events that happen to map alike are harmless.
- Which report wins in a single run for an attempt whose own event is still under way at the copy: it depends on the interleaving; only what holds in all continuations is settled.
- SuiteMapping.MapSuite: warnings are left out, also those for dropped attempts and containers.
- Engine.Engine.FinishSummary: attachment, container and warning counts and the elapsed time are not part of this model.
- Fixture sections: their steps are mapped for errors only; fixture contents, nesting inside fixtures, hook messages and screenshots are not part of this model.
- Parameters shown on steps, labels, links, descriptions, display names, status details, warnings and attachments of results and containers; the diagnostic protocol dump that adds an attachment to the first result.
- FailureKind's search for assertion markers: its verdict is a field of the execution.
- Text is ASCII and paths follow Unix rules; lower-casing that changes byte length is not modelled.
- Protocol items carry exactly the fields of their kind; a negative scenario-table row index, on which the source panics, is excluded by a type.
- Collisions after hashing: identity results are about the text before SHA-256. Timestamps are taken as parsed, and parameter patterns are given as predicates.
- The filesystem is a map from names to contents, with rename as one atomic step; fsync, permissions and directory creation are not modelled, and the check for dangerous target directories is a flag.
- UUIDs that the attachment manager draws are not counted among those of the mapper.
- gRPC server, command line, configuration, logging, executor detection and categories.
- Disagreements between code and documentation, resolved for the code: docs/gauge-allure-mapping.md says history ids use sorted logical parameters, the code keeps their order; it also says child times clamp to their parent, which holds exactly under the condition of NestingExactly.
