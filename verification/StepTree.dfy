/** internal/mapping/mapping.go, mapItems and scenarioSteps: Gauge items to a tree of timed steps. */
module StepTree {
  import opened Int64
  import opened Wrappers
  import opened Timing
  import opened Status

  /**
   * The parts of a Gauge step the mapping depends on. `name` is the first non-blank of its texts, or
   * empty; `arguments` are its parameter fragments, named and rendered as text. `importable` says whether
   * every attachment the configuration selects for this step can be imported; it matters in strict mode only.
   */
  datatype Step = Step(name: string, arguments: seq<(string, string)>, execution: Option<StepExecution>,
                       importable: bool)

  /** A concept: its own step, the items it is made of, its execution result. */
  datatype Concept = Concept(step: Option<Step>, steps: seq<Item>, execution: Option<StepExecution>)

  /** A protocol item; None stands for the nil pointers the protocol allows. */
  datatype Item =
    | NilItem
    | StepItem(step: Option<Step>)
    | ConceptItem(concept: Option<Concept>)
    | OtherItem

  /** An Allure step with its time range, status and children. */
  datatype StepResult = StepResult(name: string, status: Status, start: int64, stop: int64, steps: seq<StepResult>)

  /** `strictImports`: attachments are copied and a failing copy is an error (strict mode). */
  datatype Config = Config(maxDepth: nat, strictImports: bool)

  /** What mapItems returns: the steps, the advanced cursor, and whether it stopped on an error. */
  datatype Mapped = Mapped(steps: seq<StepResult>, cursor: int64, ok: bool)

  const MARKER_NAME := "[Gauge] Maximum concept nesting depth exceeded"
  const UNNAMED_STEP := "Unnamed Gauge step"

  function Marker(at: int64): StepResult {
    StepResult(MARKER_NAME, Broken, at, at, [])
  }

  function StepOf(item: Item): Option<Step> {
    match item
    case StepItem(step) => step
    case ConceptItem(Some(concept)) => concept.step
    case _ => None
  }

  function ChildrenOf(item: Item): seq<Item> {
    match item
    case ConceptItem(Some(concept)) => concept.steps
    case _ => []
  }

  function ExecutionOf(item: Item): Option<StepExecution> {
    match item
    case StepItem(Some(step)) => step.execution
    case ConceptItem(Some(concept)) => concept.execution
    case _ => None
  }

  function DurationOf(item: Item): int64 {
    match ExecutionOf(item)
    case Some(StepExecution(_, _, Some(execution))) => Max(execution.executionTime, 0)
    case _ => 0
  }

  /** The range of one step: its duration from the cursor on, clamped, and at least 1 ms where there is room. */
  function StepRange(cursor: int64, duration: int64, parent: Range): Range {
    var r := Clamp(Range(cursor, Add(cursor, duration)), parent);
    if r.stop == r.start && parent.stop > r.start then Range(r.start, Min(parent.stop, r.start + 1)) else r
  }

  function Statuses(steps: seq<StepResult>): (r: seq<Status>)
    ensures |r| == |steps|
    ensures forall i :: 0 <= i < |steps| ==> r[i] == steps[i].status
  {
    seq(|steps|, i requires 0 <= i < |steps| => steps[i].status)
  }

  function ImportFails(cfg: Config, item: Item): bool {
    cfg.strictImports && StepOf(item).Some? && !StepOf(item).value.importable
  }

  /** The step an item that has one becomes when mapping reaches it at `cursor`. */
  function MapItem(cfg: Config, item: Item, cursor: int64, parent: Range, depth: nat): StepResult
    requires StepOf(item).Some?
    decreases item, 0
  {
    var range := StepRange(cursor, DurationOf(item), parent);
    var status := FromStep(ExecutionOf(item));
    var name := if StepOf(item).value.name == "" then UNNAMED_STEP else StepOf(item).value.name;
    if ChildrenOf(item) == [] then
      StepResult(name, status, range.start, range.stop, [])
    else
      var children := MapItems(cfg, ChildrenOf(item), range.start, range, depth + 1).steps;
      var aggregate := if status == Passed then Worst(Statuses(children)) else status;
      StepResult(name, aggregate, range.start, range.stop, children)
  }

  /** The item loop. A failing import ends it with the steps mapped so far. */
  function MapForest(cfg: Config, items: seq<Item>, cursor: int64, parent: Range, depth: nat): Mapped
    decreases items, 0
  {
    if items == [] then Mapped([], cursor, true)
    else if StepOf(items[0]).None? then MapForest(cfg, items[1..], cursor, parent, depth)
    else if ImportFails(cfg, items[0]) then Mapped([], cursor, false)
    else
      var mapped := MapItem(cfg, items[0], cursor, parent, depth);
      var rest := MapForest(cfg, items[1..], Max(cursor, mapped.stop), parent, depth);
      Mapped([mapped] + rest.steps, rest.cursor, rest.ok)
  }

  /** mapItems: past the depth limit the whole list is replaced by one broken marker. */
  function MapItems(cfg: Config, items: seq<Item>, cursor: int64, parent: Range, depth: nat): Mapped
    decreases items, 1
  {
    if depth > cfg.maxDepth then Mapped([Marker(cursor)], cursor, true)
    else MapForest(cfg, items, cursor, parent, depth)
  }

  // ---------------------------------------------------------------- the loops of the source

  function Prepend(steps: seq<StepResult>, rest: Mapped): Mapped {
    rest.(steps := steps + rest.steps)
  }

  /** One turn of the item loop. */
  lemma MapForestTurn(cfg: Config, items: seq<Item>, i: nat, result: seq<StepResult>, cursor: int64, parent: Range,
                      depth: nat)
    requires i < |items|
    ensures var all := Prepend(result, MapForest(cfg, items[i..], cursor, parent, depth));
            if StepOf(items[i]).None? then all == Prepend(result, MapForest(cfg, items[i + 1..], cursor, parent, depth))
            else if ImportFails(cfg, items[i]) then all == Mapped(result, cursor, false)
            else
              var mapped := MapItem(cfg, items[i], cursor, parent, depth);
              all == Prepend(result + [mapped], MapForest(cfg, items[i + 1..], Max(cursor, mapped.stop), parent, depth))
  {
  }

  /** mapItems as the source runs it: one pass over the items, the cursor and the result updated in place. */
  method RunMapItems(cfg: Config, items: seq<Item>, start: int64, parent: Range, depth: nat)
    returns (result: seq<StepResult>, cursor: int64, ok: bool)
    ensures Mapped(result, cursor, ok) == MapItems(cfg, items, start, parent, depth)
    decreases items, 1
  {
    cursor, ok := start, true;
    if depth > cfg.maxDepth {
      return [Marker(cursor)], cursor, true;
    }
    result := [];
    for i := 0 to |items|
      invariant ok
      invariant MapForest(cfg, items, start, parent, depth) ==
        Prepend(result, MapForest(cfg, items[i..], cursor, parent, depth))
    {
      MapForestTurn(cfg, items, i, result, cursor, parent, depth);
      if StepOf(items[i]).None? {
        continue;
      }
      assert items decreases to items[i];
      var mapped := RunMapItem(cfg, items[i], cursor, parent, depth);
      if ImportFails(cfg, items[i]) {
        return result, cursor, false;
      }
      result := result + [mapped];
      cursor := Max(cursor, mapped.stop);
    }
  }

  /** The body of the item loop, with its recursive call for concepts. */
  method RunMapItem(cfg: Config, item: Item, cursor: int64, parent: Range, depth: nat) returns (mapped: StepResult)
    requires StepOf(item).Some?
    ensures mapped == MapItem(cfg, item, cursor, parent, depth)
    decreases item, 0
  {
    var range := StepRange(cursor, DurationOf(item), parent);
    var status := FromStep(ExecutionOf(item));
    var name := if StepOf(item).value.name == "" then UNNAMED_STEP else StepOf(item).value.name;
    mapped := StepResult(name, status, range.start, range.stop, []);
    if |ChildrenOf(item)| > 0 {
      assert item decreases to ChildrenOf(item);
      var children, nestedCursor, nestedOk := RunMapItems(cfg, ChildrenOf(item), range.start, range, depth + 1);
      mapped := mapped.(steps := children);
      if mapped.status == Passed {
        var aggregate := AggregateStepStatus(Statuses(children));
        mapped := mapped.(status := aggregate);
      }
    }
  }

  // ---------------------------------------------------------------- scenarioSteps

  datatype Mode = GroupedSteps | Flat | Fixtures

  datatype Section = Section(name: string, mode: Mode, items: seq<Item>)

  function Group(name: string, steps: seq<StepResult>): StepResult
    requires steps != []
  {
    StepResult(name, Worst(Statuses(steps)), steps[0].start, steps[|steps| - 1].stop, steps)
  }

  /** What one section adds to the top level of the tree. */
  function Emit(section: Section, steps: seq<StepResult>): seq<StepResult> {
    if steps == [] then [] else if section.mode == Flat then steps else [Group(section.name, steps)]
  }

  /** The section loop; an error in any section discards every group (None). */
  function MapSections(cfg: Config, sections: seq<Section>, cursor: int64, parent: Range): Option<seq<StepResult>> {
    if sections == [] then Some([])
    else if sections[0].mode == Fixtures then MapSections(cfg, sections[1..], cursor, parent)
    else
      var m := MapItems(cfg, sections[0].items, cursor, parent, 0);
      if !m.ok then None else After(Emit(sections[0], m.steps), MapSections(cfg, sections[1..], m.cursor, parent))
  }

  /** The three sections of a scenario; only its own steps are always grouped. */
  function Sections(contexts: seq<Item>, items: seq<Item>, teardown: seq<Item>, contextMode: Mode,
                    teardownMode: Mode): seq<Section> {
    [Section("Context", contextMode, contexts), Section("Steps", GroupedSteps, items),
     Section("Teardown", teardownMode, teardown)]
  }

  function After(groups: seq<StepResult>, rest: Option<seq<StepResult>>): Option<seq<StepResult>> {
    if rest.None? then None else Some(groups + rest.value)
  }

  lemma AfterAssociates(a: seq<StepResult>, b: seq<StepResult>, rest: Option<seq<StepResult>>)
    ensures After(a, After(b, rest)) == After(a + b, rest)
    ensures After([], rest) == rest
  {
    if rest.Some? {
      assert a + (b + rest.value) == (a + b) + rest.value;
      assert [] + rest.value == rest.value;
    }
  }

  /** scenarioSteps as the source runs it. */
  method RunScenarioSteps(cfg: Config, sections: seq<Section>, parent: Range)
    returns (groups: seq<StepResult>, ok: bool)
    ensures MapSections(cfg, sections, parent.start, parent) == if ok then Some(groups) else None
  {
    groups, ok := [], true;
    var cursor := parent.start;
    AfterAssociates([], [], MapSections(cfg, sections, cursor, parent));
    assert sections[0..] == sections;
    for i := 0 to |sections|
      invariant MapSections(cfg, sections, parent.start, parent) ==
        After(groups, MapSections(cfg, sections[i..], cursor, parent))
    {
      var section := sections[i];
      assert sections[i..][1..] == sections[i + 1..] && sections[i..][0] == section;
      if section.mode == Fixtures {
        continue;
      }
      var steps, next, mapped := RunMapItems(cfg, section.items, cursor, parent, 0);
      if !mapped {
        return [], false;
      }
      AfterAssociates(groups, Emit(section, steps), MapSections(cfg, sections[i + 1..], next, parent));
      cursor := next;
      if |steps| == 0 {
        assert groups + [] == groups;
        continue;
      }
      if section.mode == Flat {
        groups := groups + steps;
        continue;
      }
      var status := AggregateStepStatus(Statuses(steps));
      groups := groups + [StepResult(section.name, status, steps[0].start, steps[|steps| - 1].stop, steps)];
    }
  }
}
