/** Where the steps of a mapped tree lie in time. */
module StepTreeTiming {
  import opened Int64
  import opened Wrappers
  import opened Timing
  import opened Status
  import opened StepTree
  import opened StepTreeShape

  /** Where a row of abutting steps that starts at `from` ends. */
  ghost function End(steps: seq<StepResult>, from: int64): int64 {
    if steps == [] then from else steps[|steps| - 1].stop
  }

  /** Siblings abut from `from` on, and the children of every node tile a prefix of its range. */
  ghost predicate Tiled(steps: seq<StepResult>, from: int64)
    decreases steps
  {
    steps != [] ==>
      && steps[0].start == from <= steps[0].stop
      && Tiled(steps[0].steps, steps[0].start)
      && End(steps[0].steps, steps[0].start) <= steps[0].stop
      && Tiled(steps[1..], steps[0].stop)
  }

  /** Every node at every depth runs forward and lies inside the range of its parent. */
  ghost predicate Within(steps: seq<StepResult>, parent: Range)
    decreases steps
  {
    forall s <- steps ::
      && parent.start <= s.start <= s.stop <= parent.stop
      && Within(s.steps, Range(s.start, s.stop))
  }

  /** The times for which clamping keeps children inside their parent: zero stops do not clamp. */
  predicate Bounded(cursor: int64, parent: Range) {
    && parent.start <= cursor <= parent.stop
    && (parent.stop < 0 || (0 <= cursor && 0 < parent.stop))
  }

  /** A step lasts its duration, at least 1 ms, cut at its parent's end; a wrapped sum counts as 1 ms. */
  lemma StepRangeLength(cursor: int64, duration: int64, parent: Range)
    requires Bounded(cursor, parent) && 0 <= duration
    ensures var r := StepRange(cursor, duration, parent);
            && r.start == cursor
            && r.stop == Min(parent.stop, cursor + if cursor + duration > MAX_INT64 then 1 else Max(duration, 1))
            && Bounded(r.start, r)
  {
  }

  lemma {:induction false} TiledWithin(steps: seq<StepResult>, from: int64, parent: Range)
    requires Tiled(steps, from) && parent.start <= from && End(steps, from) <= parent.stop
    ensures Within(steps, parent) && from <= End(steps, from)
    decreases steps
  {
    if steps != [] {
      TiledWithin(steps[0].steps, steps[0].start, Range(steps[0].start, steps[0].stop));
      TiledWithin(steps[1..], steps[0].stop, parent);
      assert forall s <- steps :: s == steps[0] || s in steps[1..];
    }
  }

  lemma {:induction false} MapForestTiles(cfg: Config, items: seq<Item>, cursor: int64, parent: Range, depth: nat)
    requires Bounded(cursor, parent)
    ensures var m := MapForest(cfg, items, cursor, parent, depth);
            Tiled(m.steps, cursor) && m.cursor == End(m.steps, cursor) && cursor <= m.cursor <= parent.stop
    decreases items, 0
  {
    if items == [] {
    } else if StepOf(items[0]).None? {
      MapForestTiles(cfg, items[1..], cursor, parent, depth);
    } else if !ImportFails(cfg, items[0]) {
      var item := items[0];
      var range := StepRange(cursor, DurationOf(item), parent);
      StepRangeLength(cursor, DurationOf(item), parent);
      if ChildrenOf(item) != [] {
        assert items decreases to item;
        assert item decreases to ChildrenOf(item);
        MapItemsTiles(cfg, ChildrenOf(item), range.start, range, depth + 1);
      }
      var mapped := MapItem(cfg, item, cursor, parent, depth);
      MapForestTiles(cfg, items[1..], mapped.stop, parent, depth);
      var m := MapForest(cfg, items, cursor, parent, depth);
      assert m.steps[0] == mapped;
      assert m.steps[1..] == MapForest(cfg, items[1..], mapped.stop, parent, depth).steps;
    }
  }

  /** Whatever the input, wrap-around included: siblings abut and the cursor is the last one's stop. */
  lemma {:induction false} MapItemsTiles(cfg: Config, items: seq<Item>, cursor: int64, parent: Range, depth: nat)
    requires Bounded(cursor, parent)
    ensures var m := MapItems(cfg, items, cursor, parent, depth);
            Tiled(m.steps, cursor) && m.cursor == End(m.steps, cursor) && cursor <= m.cursor <= parent.stop
    decreases items, 1
  {
    if depth <= cfg.maxDepth {
      MapForestTiles(cfg, items, cursor, parent, depth);
    }
  }

  // ---------------------------------------------------------------- how long steps last

  /** The duration the execution result reports, if there is one. */
  function Reported(execution: Option<StepExecution>): int64 {
    match execution
    case Some(StepExecution(_, _, Some(result))) => Max(result.executionTime, 0)
    case _ => 0
  }

  /** The node lasts its own reported duration, at least 1 ms, cut at `stop`; a wrapped sum counts as 1 ms. */
  predicate Lasts(duration: int64, node: StepResult, stop: int64) {
    node.stop == Min(stop, node.start + if node.start + duration > MAX_INT64 then 1 else Max(duration, 1))
  }

  ghost predicate NodeLasts(cfg: Config, item: Item, depth: nat, node: StepResult, stop: int64)
    decreases node, 1
  {
    match item
    case StepItem(Some(step)) => Lasts(Reported(step.execution), node, stop)
    case ConceptItem(Some(Concept(_, children, execution))) =>
      Lasts(Reported(execution), node, stop) &&
      (children != [] ==> TreeLasts(cfg, children, depth + 1, node.steps, node.stop))
    case _ => false
  }

  ghost predicate TreeLasts(cfg: Config, items: seq<Item>, depth: nat, nodes: seq<StepResult>, stop: int64)
    decreases nodes, 0
  {
    depth <= cfg.maxDepth ==>
      var kept := BeforeFailure(cfg, Retained(items));
      |nodes| == |kept| && forall i :: 0 <= i < |kept| ==> NodeLasts(cfg, kept[i], depth, nodes[i], stop)
  }

  lemma LastingGrows(cfg: Config, item: Item, rest: seq<Item>, depth: nat, node: StepResult, nodes: seq<StepResult>,
                     stop: int64)
    requires depth <= cfg.maxDepth && TreeLasts(cfg, rest, depth, nodes, stop)
    requires StepOf(item).Some? && !ImportFails(cfg, item) && NodeLasts(cfg, item, depth, node, stop)
    ensures TreeLasts(cfg, [item] + rest, depth, [node] + nodes, stop)
  {
  }

  lemma MappedLasts(cfg: Config, item: Item, cursor: int64, parent: Range, depth: nat, range: Range)
    requires Bounded(cursor, parent) && StepOf(item).Some? && range == StepRange(cursor, DurationOf(item), parent)
    requires ChildrenOf(item) != [] ==>
      TreeLasts(cfg, ChildrenOf(item), depth + 1,
                MapItems(cfg, ChildrenOf(item), range.start, range, depth + 1).steps, range.stop)
    ensures NodeLasts(cfg, item, depth, MapItem(cfg, item, cursor, parent, depth), parent.stop)
  {
    StepRangeLength(cursor, DurationOf(item), parent);
  }

  /** At every depth: steps and concepts last as long as they report, as far as there is room. */
  lemma {:induction false} MapItemsLast(cfg: Config, items: seq<Item>, cursor: int64, parent: Range, depth: nat)
    requires Bounded(cursor, parent)
    ensures TreeLasts(cfg, items, depth, MapItems(cfg, items, cursor, parent, depth).steps, parent.stop)
    decreases items
  {
    if depth <= cfg.maxDepth && items != [] {
      if StepOf(items[0]).None? {
        MapItemsLast(cfg, items[1..], cursor, parent, depth);
        assert Retained(items) == Retained(items[1..]);
      } else if !ImportFails(cfg, items[0]) {
        var item := items[0];
        var range := StepRange(cursor, DurationOf(item), parent);
        StepRangeLength(cursor, DurationOf(item), parent);
        if ChildrenOf(item) != [] {
          assert items decreases to item;
          assert item decreases to ChildrenOf(item);
          MapItemsLast(cfg, ChildrenOf(item), range.start, range, depth + 1);
        }
        MappedLasts(cfg, item, cursor, parent, depth, range);
        var mapped := MapItem(cfg, item, cursor, parent, depth);
        MapItemsLast(cfg, items[1..], mapped.stop, parent, depth);
        LastingGrows(cfg, item, items[1..], depth, mapped, MapItems(cfg, items[1..], mapped.stop, parent, depth).steps,
                     parent.stop);
        assert items == [item] + items[1..];
      }
    }
  }

  // ---------------------------------------------------------------- exactly when steps nest

  function TimedStep(duration: int64): Item {
    StepItem(Some(Step("step", [],
                       Some(StepExecution(false, false, Some(Execution(false, false, ErrorNone, duration)))), true)))
  }

  function TimedConcept(duration: int64, steps: seq<Item>): Item {
    ConceptItem(Some(Concept(Some(Step("concept", [], None, true)), steps,
                             Some(StepExecution(false, false, Some(Execution(false, false, ErrorNone, duration)))))))
  }

  const LONG_STEPS := [TimedStep(MAX_INT64), TimedStep(MAX_INT64)]

  lemma MapItemsCons(cfg: Config, item: Item, tail: seq<Item>, cursor: int64, parent: Range, depth: nat)
    requires depth <= cfg.maxDepth && StepOf(item).Some? && !ImportFails(cfg, item)
    ensures var mapped := MapItem(cfg, item, cursor, parent, depth);
            var m := MapItems(cfg, [item] + tail, cursor, parent, depth);
            && m.steps == [mapped] + MapItems(cfg, tail, Max(cursor, mapped.stop), parent, depth).steps
            && mapped in m.steps
  {
  }

  /** A parent that ends at zero is not seen to end at all. */
  lemma ZeroStopDoesNotBound(cfg: Config, cursor: int64, parent: Range, depth: nat)
    requires parent.start <= cursor <= 0 == parent.stop && depth <= cfg.maxDepth
    ensures !Within(MapItems(cfg, LONG_STEPS, cursor, parent, depth).steps, parent)
  {
    var step := TimedStep(MAX_INT64);
    var r := StepRange(cursor, MAX_INT64, parent);
    assert LONG_STEPS == [step] + [step] && [step] == [step] + [];
    MapItemsCons(cfg, step, [step], cursor, parent, depth);
    MapItemsCons(cfg, step, [], r.stop, parent, depth);
  }

  /** A concept that crosses from negative to positive time can end at zero itself. */
  lemma NegativeStartEscapes(cfg: Config, cursor: int64, parent: Range, depth: nat) returns (items: seq<Item>)
    requires parent.start <= cursor < 0 < parent.stop && depth < cfg.maxDepth
    ensures !Within(MapItems(cfg, items, cursor, parent, depth).steps, parent)
    decreases cursor == MIN_INT64
  {
    if cursor == MIN_INT64 {
      var rest := NegativeStartEscapes(cfg, cursor + 1, parent, depth);
      items := [TimedStep(1)] + rest;
      MapItemsCons(cfg, TimedStep(1), rest, cursor, parent, depth);
    } else {
      items := [TimedConcept(-cursor, LONG_STEPS)];
      var r := StepRange(cursor, -cursor, parent);
      assert r == Range(cursor, 0);
      ZeroStopDoesNotBound(cfg, cursor, r, depth + 1);
      assert items == items + [];
      MapItemsCons(cfg, items[0], [], cursor, parent, depth);
    }
  }

  /** Child times stay inside their parent for every input exactly when `Bounded` holds on entry. */
  lemma NestingExactly(cfg: Config, cursor: int64, parent: Range, depth: nat)
    requires parent.start <= cursor && depth < cfg.maxDepth
    ensures (forall items :: Within(MapItems(cfg, items, cursor, parent, depth).steps, parent)) <==>
      Bounded(cursor, parent)
  {
    if Bounded(cursor, parent) {
      forall items ensures Within(MapItems(cfg, items, cursor, parent, depth).steps, parent) {
        MapItemsTiles(cfg, items, cursor, parent, depth);
        TiledWithin(MapItems(cfg, items, cursor, parent, depth).steps, cursor, parent);
      }
    } else if cursor > parent.stop {
      assert [TimedStep(0)] == [TimedStep(0)] + [];
      MapItemsCons(cfg, TimedStep(0), [], cursor, parent, depth);
    } else if parent.stop == 0 {
      ZeroStopDoesNotBound(cfg, cursor, parent, depth);
    } else {
      var items := NegativeStartEscapes(cfg, cursor, parent, depth);
    }
  }

  // ---------------------------------------------------------------- Context, Steps and Teardown

  lemma {:induction false} TiledConcat(a: seq<StepResult>, b: seq<StepResult>, from: int64)
    requires Tiled(a, from) && Tiled(b, End(a, from))
    ensures Tiled(a + b, from) && End(a + b, from) == End(b, End(a, from))
  {
    if a == [] {
      assert a + b == b;
    } else {
      assert (a + b)[1..] == a[1..] + b;
      TiledConcat(a[1..], b, a[0].stop);
    }
  }

  lemma EmitTiles(section: Section, steps: seq<StepResult>, cursor: int64)
    requires Tiled(steps, cursor)
    ensures Tiled(Emit(section, steps), cursor) && End(Emit(section, steps), cursor) == End(steps, cursor)
  {
    if steps != [] {
      TiledWithin(steps, cursor, Range(cursor, End(steps, cursor)));
      assert [Group(section.name, steps)][1..] == [];
    }
  }

  lemma {:induction false} SectionsTile(cfg: Config, sections: seq<Section>, cursor: int64, parent: Range)
    requires Bounded(cursor, parent)
    ensures match MapSections(cfg, sections, cursor, parent)
            case None => true
            case Some(groups) => Tiled(groups, cursor) && cursor <= End(groups, cursor) <= parent.stop
  {
    if sections == [] {
    } else if sections[0].mode == Fixtures {
      SectionsTile(cfg, sections[1..], cursor, parent);
    } else {
      var m := MapItems(cfg, sections[0].items, cursor, parent, 0);
      MapItemsTiles(cfg, sections[0].items, cursor, parent, 0);
      SectionsTile(cfg, sections[1..], m.cursor, parent);
      var head := Emit(sections[0], m.steps);
      EmitTiles(sections[0], m.steps, cursor);
      var rest := MapSections(cfg, sections[1..], m.cursor, parent);
      if rest.Some? {
        TiledConcat(head, rest.value, cursor);
      }
    }
  }

  ghost predicate ExactHull(group: StepResult) {
    group.steps != [] && group.start == group.steps[0].start && group.stop == group.steps[|group.steps| - 1].stop
  }

  /**
   * What the sections leave, one after the other: nothing for fixtures and for sections without steps, exactly
   * its steps for a flat section, and otherwise one group of the section's name around them.
   */
  ghost predicate IsGrouped(cfg: Config, sections: seq<Section>, cursor: int64, parent: Range,
                            groups: seq<StepResult>) {
    if sections == [] then groups == []
    else if sections[0].mode == Fixtures then IsGrouped(cfg, sections[1..], cursor, parent, groups)
    else
      var m := MapItems(cfg, sections[0].items, cursor, parent, 0);
      if m.steps == [] then IsGrouped(cfg, sections[1..], m.cursor, parent, groups)
      else if sections[0].mode == Flat then
        m.steps <= groups && IsGrouped(cfg, sections[1..], m.cursor, parent, groups[|m.steps|..])
      else
        && groups != [] && ExactHull(groups[0])
        && groups[0].name == sections[0].name && groups[0].steps == m.steps &&
           groups[0].status == Worst(Statuses(m.steps))
        && IsGrouped(cfg, sections[1..], m.cursor, parent, groups[1..])
  }

  /** Every grouped section hugs its steps, whatever the modes of the sections around it. */
  lemma {:induction false} GroupsHug(cfg: Config, sections: seq<Section>, cursor: int64, parent: Range)
    ensures match MapSections(cfg, sections, cursor, parent)
            case None => true
            case Some(groups) => IsGrouped(cfg, sections, cursor, parent, groups)
  {
    if sections == [] {
    } else if sections[0].mode == Fixtures {
      GroupsHug(cfg, sections[1..], cursor, parent);
    } else {
      var m := MapItems(cfg, sections[0].items, cursor, parent, 0);
      GroupsHug(cfg, sections[1..], m.cursor, parent);
      var head, rest := Emit(sections[0], m.steps), MapSections(cfg, sections[1..], m.cursor, parent);
      if rest.Some? {
        assert (head + rest.value)[|head|..] == rest.value;
      }
    }
  }

  /** Without flat sections the top level consists of such groups alone, at most one for each section. */
  lemma {:induction false} GroupedWithoutFlat(cfg: Config, sections: seq<Section>, cursor: int64, parent: Range,
                                              groups: seq<StepResult>)
    requires IsGrouped(cfg, sections, cursor, parent, groups) && forall s <- sections :: s.mode != Flat
    ensures |groups| <= |sections| && forall g <- groups :: ExactHull(g)
  {
    if sections != [] {
      var next := if sections[0].mode == Fixtures then cursor
        else MapItems(cfg, sections[0].items, cursor, parent, 0).cursor;
      if IsGrouped(cfg, sections[1..], next, parent, groups) {
        GroupedWithoutFlat(cfg, sections[1..], next, parent, groups);
      } else {
        GroupedWithoutFlat(cfg, sections[1..], next, parent, groups[1..]);
        assert groups == [groups[0]] + groups[1..];
      }
    }
  }

  /** A scenario's groups run in order through its range without gaps, and hug their steps in every mode. */
  lemma ScenarioStepsNest(cfg: Config, contexts: seq<Item>, items: seq<Item>, teardown: seq<Item>, contextMode: Mode,
                          teardownMode: Mode, parent: Range)
    requires Bounded(parent.start, parent)
    ensures match MapSections(cfg, Sections(contexts, items, teardown, contextMode, teardownMode), parent.start, parent)
            case None => true
            case Some(groups) =>
              && Tiled(groups, parent.start)
              && Within(groups, parent)
              && IsGrouped(cfg, [Section("Context", contextMode, contexts), Section("Steps", GroupedSteps, items),
                                 Section("Teardown", teardownMode, teardown)], parent.start, parent, groups)
              && (contextMode != Flat && teardownMode != Flat ==> |groups| <= 3 && forall g <- groups :: ExactHull(g))
  {
    var sections := Sections(contexts, items, teardown, contextMode, teardownMode);
    SectionsTile(cfg, sections, parent.start, parent);
    GroupsHug(cfg, sections, parent.start, parent);
    var mapped := MapSections(cfg, sections, parent.start, parent);
    if mapped.Some? {
      TiledWithin(mapped.value, parent.start, parent);
      if contextMode != Flat && teardownMode != Flat {
        GroupedWithoutFlat(cfg, sections, parent.start, parent, mapped.value);
      }
    }
  }
}
