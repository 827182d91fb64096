/** Which steps a mapped tree holds, how deep it gets, and what a passed node says about its subtree. */
module StepTreeShape {
  import opened Int64
  import opened Timing
  import opened Status
  import opened StepTree

  datatype Shape = Shape(name: string, children: seq<Shape>)

  function ShapeOf(steps: seq<StepResult>): seq<Shape> {
    if steps == [] then []
    else [Shape(steps[0].name, ShapeOf(steps[0].steps))] + ShapeOf(steps[1..])
  }

  /** The items that have a step, in order. */
  function Retained(items: seq<Item>): seq<Item> {
    if items == [] then []
    else (if StepOf(items[0]).Some? then [items[0]] else []) + Retained(items[1..])
  }

  /** The items before the first whose import fails. */
  function BeforeFailure(cfg: Config, items: seq<Item>): seq<Item> {
    if items == [] || ImportFails(cfg, items[0]) then []
    else [items[0]] + BeforeFailure(cfg, items[1..])
  }

  function Named(name: string): string {
    if name == "" then UNNAMED_STEP else name
  }

  /** The reference: at each level keep the steps up to a failing import; below the limit put one marker. */
  ghost predicate PrunedTo(cfg: Config, items: seq<Item>, depth: nat, shapes: seq<Shape>)
    decreases shapes
  {
    if depth > cfg.maxDepth then shapes == [Shape(MARKER_NAME, [])]
    else
      var kept := BeforeFailure(cfg, Retained(items));
      && |shapes| == |kept|
      && forall i :: 0 <= i < |kept| ==>
        && StepOf(kept[i]).Some?
        && shapes[i].name == Named(StepOf(kept[i]).value.name)
        && if ChildrenOf(kept[i]) == [] then shapes[i].children == []
           else PrunedTo(cfg, ChildrenOf(kept[i]), depth + 1, shapes[i].children)
  }

  lemma ShapeOfCons(step: StepResult, rest: seq<StepResult>)
    ensures ShapeOf([step] + rest) == [Shape(step.name, ShapeOf(step.steps))] + ShapeOf(rest)
  {
  }

  lemma PrunedMore(cfg: Config, item: Item, rest: seq<Item>, depth: nat, shape: Shape, shapes: seq<Shape>)
    requires depth <= cfg.maxDepth && PrunedTo(cfg, rest, depth, shapes)
    requires StepOf(item).Some? && !ImportFails(cfg, item) && shape.name == Named(StepOf(item).value.name)
    requires if ChildrenOf(item) == [] then shape.children == []
             else PrunedTo(cfg, ChildrenOf(item), depth + 1, shape.children)
    ensures PrunedTo(cfg, [item] + rest, depth, [shape] + shapes)
  {
  }

  /** The tree is the pruned input forest, in order, in every mode. */
  lemma {:induction false} MapForestPrunes(cfg: Config, items: seq<Item>, cursor: int64, parent: Range, depth: nat)
    requires depth <= cfg.maxDepth
    ensures PrunedTo(cfg, items, depth, ShapeOf(MapForest(cfg, items, cursor, parent, depth).steps))
    decreases items, 0
  {
    if items == [] {
    } else if StepOf(items[0]).None? {
      MapForestPrunes(cfg, items[1..], cursor, parent, depth);
      assert Retained(items) == Retained(items[1..]);
    } else if !ImportFails(cfg, items[0]) {
      var item := items[0];
      var range := StepRange(cursor, DurationOf(item), parent);
      if ChildrenOf(item) != [] {
        assert items decreases to item;
        assert item decreases to ChildrenOf(item);
        MapItemsPrunes(cfg, ChildrenOf(item), range.start, range, depth + 1);
      }
      var mapped := MapItem(cfg, item, cursor, parent, depth);
      var rest := MapForest(cfg, items[1..], Max(cursor, mapped.stop), parent, depth).steps;
      MapForestPrunes(cfg, items[1..], Max(cursor, mapped.stop), parent, depth);
      ShapeOfCons(mapped, rest);
      PrunedMore(cfg, item, items[1..], depth, Shape(mapped.name, ShapeOf(mapped.steps)), ShapeOf(rest));
      assert items == [item] + items[1..];
    }
  }

  lemma {:induction false} MapItemsPrunes(cfg: Config, items: seq<Item>, cursor: int64, parent: Range, depth: nat)
    ensures PrunedTo(cfg, items, depth, ShapeOf(MapItems(cfg, items, cursor, parent, depth).steps))
    decreases items, 1
  {
    if depth <= cfg.maxDepth {
      MapForestPrunes(cfg, items, cursor, parent, depth);
    } else {
      ShapeOfCons(Marker(cursor), []);
      assert [Marker(cursor)] == [Marker(cursor)] + [];
    }
  }

  /** The pruned forest is unique: the input fixes every name, every child list and every order. */
  lemma {:induction false} PrunedIsUnique(cfg: Config, items: seq<Item>, depth: nat, a: seq<Shape>, b: seq<Shape>)
    requires PrunedTo(cfg, items, depth, a) && PrunedTo(cfg, items, depth, b)
    ensures a == b
    decreases a
  {
    if depth <= cfg.maxDepth {
      var kept := BeforeFailure(cfg, Retained(items));
      forall i | 0 <= i < |a| ensures a[i] == b[i] {
        assert StepOf(kept[i]).Some?;
        if ChildrenOf(kept[i]) != [] {
          PrunedIsUnique(cfg, ChildrenOf(kept[i]), depth + 1, a[i].children, b[i].children);
        }
      }
    }
  }

  /** The attachments selected for the step the item has, if any, can be imported. */
  predicate IsImportable(item: Item) {
    match item
    case StepItem(Some(step)) => step.importable
    case ConceptItem(Some(Concept(Some(step), _, _))) => step.importable
    case _ => true
  }

  /** Only a failing import at the top level is reported: failures inside concepts are swallowed. */
  lemma {:induction false} ErrorsAreTopLevel(cfg: Config, items: seq<Item>, cursor: int64, parent: Range, depth: nat)
    ensures MapItems(cfg, items, cursor, parent, depth).ok <==>
            depth > cfg.maxDepth || !cfg.strictImports || forall item <- items :: IsImportable(item)
  {
    if depth <= cfg.maxDepth && items != [] {
      assert items == [items[0]] + items[1..];
      if StepOf(items[0]).None? {
        ErrorsAreTopLevel(cfg, items[1..], cursor, parent, depth);
      } else if !ImportFails(cfg, items[0]) {
        ErrorsAreTopLevel(cfg, items[1..], Max(cursor, MapItem(cfg, items[0], cursor, parent, depth).stop), parent,
                          depth);
      } else {
        assert !IsImportable(items[0]);
      }
    }
  }

  /** In best-effort mode, without attachments, or when all of them can be imported, nothing but the pruning happens. */
  lemma {:induction false} ImportableKeepsAll(cfg: Config, items: seq<Item>)
    requires !cfg.strictImports || forall item <- items :: IsImportable(item)
    ensures BeforeFailure(cfg, items) == items
  {
    if items != [] {
      assert items[0] in items && forall item <- items[1..] :: item in items;
      ImportableKeepsAll(cfg, items[1..]);
    }
  }

  // ---------------------------------------------------------------- names, statuses and structure

  /**
   * The node an item becomes: a step without children keeps the status of its own execution, and so does a concept
   * with children unless it passed; then the worst of its children decides.
   */
  ghost predicate IsNode(cfg: Config, item: Item, depth: nat, node: StepResult)
    decreases node, 1
  {
    match item
    case StepItem(Some(step)) =>
      node.name == Named(step.name) && node.steps == [] && node.status == FromStep(step.execution)
    case ConceptItem(Some(Concept(Some(step), children, execution))) =>
      && node.name == Named(step.name)
      && if children == [] then node.steps == [] && node.status == FromStep(execution)
         else
           && IsTree(cfg, children, depth + 1, node.steps)
           && node.status ==
              if FromStep(execution) == Passed then Worst(Statuses(node.steps)) else FromStep(execution)
    case _ => false
  }

  ghost predicate IsMarker(node: StepResult) {
    node.name == MARKER_NAME && node.status == Broken && node.start == node.stop && node.steps == []
  }

  /** One node for each step up to a failing import, in order; below the depth limit one broken marker. */
  ghost predicate IsTree(cfg: Config, items: seq<Item>, depth: nat, nodes: seq<StepResult>)
    decreases nodes, 0
  {
    if depth > cfg.maxDepth then |nodes| == 1 && IsMarker(nodes[0])
    else
      var kept := BeforeFailure(cfg, Retained(items));
      |nodes| == |kept| && forall i :: 0 <= i < |kept| ==> IsNode(cfg, kept[i], depth, nodes[i])
  }

  lemma TreeGrows(cfg: Config, item: Item, rest: seq<Item>, depth: nat, node: StepResult, nodes: seq<StepResult>)
    requires depth <= cfg.maxDepth && IsTree(cfg, rest, depth, nodes)
    requires StepOf(item).Some? && !ImportFails(cfg, item) && IsNode(cfg, item, depth, node)
    ensures IsTree(cfg, [item] + rest, depth, [node] + nodes)
  {
  }

  /** Names, statuses and structure of the mapped tree are those the input calls for, at every depth. */
  lemma {:induction false} MapForestMirrors(cfg: Config, items: seq<Item>, cursor: int64, parent: Range, depth: nat)
    requires depth <= cfg.maxDepth
    ensures IsTree(cfg, items, depth, MapForest(cfg, items, cursor, parent, depth).steps)
    decreases items, 0
  {
    if items == [] {
    } else if StepOf(items[0]).None? {
      MapForestMirrors(cfg, items[1..], cursor, parent, depth);
      assert Retained(items) == Retained(items[1..]);
    } else if !ImportFails(cfg, items[0]) {
      var item := items[0];
      var range := StepRange(cursor, DurationOf(item), parent);
      if ChildrenOf(item) != [] {
        assert items decreases to item;
        assert item decreases to ChildrenOf(item);
        MapItemsMirror(cfg, ChildrenOf(item), range.start, range, depth + 1);
      }
      var mapped := MapItem(cfg, item, cursor, parent, depth);
      MapForestMirrors(cfg, items[1..], Max(cursor, mapped.stop), parent, depth);
      TreeGrows(cfg, item, items[1..], depth, mapped,
                MapForest(cfg, items[1..], Max(cursor, mapped.stop), parent, depth).steps);
      assert items == [item] + items[1..];
    }
  }

  lemma {:induction false} MapItemsMirror(cfg: Config, items: seq<Item>, cursor: int64, parent: Range, depth: nat)
    ensures IsTree(cfg, items, depth, MapItems(cfg, items, cursor, parent, depth).steps)
    decreases items, 1
  {
    if depth <= cfg.maxDepth {
      MapForestMirrors(cfg, items, cursor, parent, depth);
    }
  }

  /** Two trees of one input differ in their times alone. */
  ghost predicate AgreeButTimes(a: seq<StepResult>, b: seq<StepResult>)
    decreases a
  {
    |a| == |b| && forall i :: 0 <= i < |a| ==>
      a[i].name == b[i].name && a[i].status == b[i].status && AgreeButTimes(a[i].steps, b[i].steps)
  }

  lemma SameStatuses(a: seq<StepResult>, b: seq<StepResult>)
    requires AgreeButTimes(a, b)
    ensures Statuses(a) == Statuses(b)
  {
  }

  lemma {:induction false} TreeIsUnique(cfg: Config, items: seq<Item>, depth: nat, a: seq<StepResult>,
                                        b: seq<StepResult>)
    requires IsTree(cfg, items, depth, a) && IsTree(cfg, items, depth, b)
    ensures AgreeButTimes(a, b)
    decreases a
  {
    if depth <= cfg.maxDepth {
      var kept := BeforeFailure(cfg, Retained(items));
      forall i | 0 <= i < |a|
        ensures a[i].name == b[i].name && a[i].status == b[i].status && AgreeButTimes(a[i].steps, b[i].steps)
      {
        assert IsNode(cfg, kept[i], depth, a[i]) && IsNode(cfg, kept[i], depth, b[i]);
        if ChildrenOf(kept[i]) != [] {
          TreeIsUnique(cfg, ChildrenOf(kept[i]), depth + 1, a[i].steps, b[i].steps);
          SameStatuses(a[i].steps, b[i].steps);
        }
      }
    }
  }

  // ---------------------------------------------------------------- depth

  function Height(steps: seq<StepResult>): nat {
    if steps == [] then 0 else Max(1 + Height(steps[0].steps), Height(steps[1..]))
  }

  /** However deep the input nests, the tree from the top level on has at most maxDepth + 2 levels. */
  lemma {:induction false} HeightIsBounded(cfg: Config, items: seq<Item>, cursor: int64, parent: Range, depth: nat)
    requires depth <= cfg.maxDepth + 1
    ensures Height(MapItems(cfg, items, cursor, parent, depth).steps) <= cfg.maxDepth + 2 - depth
    decreases items
  {
    if depth > cfg.maxDepth {
      assert [Marker(cursor)][1..] == [];
    } else if items != [] {
      if StepOf(items[0]).None? {
        HeightIsBounded(cfg, items[1..], cursor, parent, depth);
      } else if !ImportFails(cfg, items[0]) {
        var item := items[0];
        var range := StepRange(cursor, DurationOf(item), parent);
        if ChildrenOf(item) != [] {
          assert items decreases to item;
          assert item decreases to ChildrenOf(item);
          HeightIsBounded(cfg, ChildrenOf(item), range.start, range, depth + 1);
        }
        var mapped := MapItem(cfg, item, cursor, parent, depth);
        HeightIsBounded(cfg, items[1..], Max(cursor, mapped.stop), parent, depth);
        var m := MapItems(cfg, items, cursor, parent, depth);
        assert m.steps[0] == mapped;
        assert m.steps[1..] == MapItems(cfg, items[1..], Max(cursor, mapped.stop), parent, depth).steps;
      }
    }
  }

  // ---------------------------------------------------------------- statuses

  /** Every passed node has only passed children. */
  ghost predicate PassesHonestly(steps: seq<StepResult>)
    decreases steps
  {
    forall s <- steps ::
      && PassesHonestly(s.steps)
      && (s.status == Passed ==> forall c <- s.steps :: c.status == Passed)
  }

  ghost predicate AllPassed(steps: seq<StepResult>)
    decreases steps
  {
    forall s <- steps :: s.status == Passed && AllPassed(s.steps)
  }

  lemma PassedAggregate(steps: seq<StepResult>)
    requires Worst(Statuses(steps)) == Passed
    ensures forall s <- steps :: s.status == Passed
  {
    forall s | s in steps ensures s.status == Passed {
      var i :| 0 <= i < |steps| && steps[i] == s;
      assert Statuses(steps)[i] in Statuses(steps);
    }
  }

  lemma {:induction false} MapItemsPassHonestly(cfg: Config, items: seq<Item>, cursor: int64, parent: Range, depth: nat)
    ensures PassesHonestly(MapItems(cfg, items, cursor, parent, depth).steps)
    decreases items
  {
    if depth <= cfg.maxDepth && items != [] {
      if StepOf(items[0]).None? {
        MapItemsPassHonestly(cfg, items[1..], cursor, parent, depth);
      } else if !ImportFails(cfg, items[0]) {
        var item := items[0];
        var range := StepRange(cursor, DurationOf(item), parent);
        var mapped := MapItem(cfg, item, cursor, parent, depth);
        if ChildrenOf(item) != [] {
          assert items decreases to item;
          assert item decreases to ChildrenOf(item);
          MapItemsPassHonestly(cfg, ChildrenOf(item), range.start, range, depth + 1);
        }
        if mapped.status == Passed && mapped.steps != [] {
          PassedAggregate(mapped.steps);
        }
        MapItemsPassHonestly(cfg, items[1..], Max(cursor, mapped.stop), parent, depth);
      }
    }
  }

  lemma {:induction false} HonestyIsTransitive(steps: seq<StepResult>)
    requires PassesHonestly(steps) && forall s <- steps :: s.status == Passed
    ensures AllPassed(steps)
    decreases steps
  {
    forall s | s in steps ensures AllPassed(s.steps) {
      HonestyIsTransitive(s.steps);
    }
  }

  /** The step or concept passed, with everything below it, and nothing below it is beyond the depth limit. */
  predicate HasPassed(maxDepth: nat, item: Item, depth: nat)
    decreases item, 0
  {
    match item
    case StepItem(Some(step)) => FromStep(step.execution) == Passed
    case ConceptItem(Some(Concept(Some(_), children, execution))) =>
      FromStep(execution) == Passed && (children != [] ==> PassedThroughout(maxDepth, children, depth + 1))
    case _ => true
  }

  predicate PassedThroughout(maxDepth: nat, items: seq<Item>, depth: nat)
    decreases items, 1
  {
    depth <= maxDepth && forall i :: 0 <= i < |items| ==> HasPassed(maxDepth, items[i], depth)
  }

  lemma {:induction false} KeptAreItems(cfg: Config, items: seq<Item>)
    ensures forall item <- Retained(items) :: item in items && StepOf(item).Some?
    ensures forall item <- items :: StepOf(item).Some? ==> item in Retained(items)
    ensures forall item <- BeforeFailure(cfg, items) :: item in items
  {
    if items != [] {
      KeptAreItems(cfg, items[1..]);
      assert items == [items[0]] + items[1..];
    }
  }

  lemma AllImportable(cfg: Config, items: seq<Item>)
    requires !cfg.strictImports
    ensures BeforeFailure(cfg, Retained(items)) == Retained(items)
  {
    ImportableKeepsAll(cfg, Retained(items));
  }

  lemma NodePassed(cfg: Config, item: Item, depth: nat, node: StepResult)
    requires IsNode(cfg, item, depth, node)
    requires ChildrenOf(item) != [] ==>
      (PassedThroughout(cfg.maxDepth, ChildrenOf(item), depth + 1) ==> AllPassed(node.steps))
    requires ChildrenOf(item) != [] && !cfg.strictImports ==>
      (AllPassed(node.steps) ==> PassedThroughout(cfg.maxDepth, ChildrenOf(item), depth + 1))
    ensures HasPassed(cfg.maxDepth, item, depth) ==> node.status == Passed && AllPassed(node.steps)
    ensures !cfg.strictImports && node.status == Passed && AllPassed(node.steps) ==>
      HasPassed(cfg.maxDepth, item, depth)
  {
    if AllPassed(node.steps) {
      WorstOfPassed(node.steps);
    }
  }

  lemma WorstOfPassed(steps: seq<StepResult>)
    requires forall s <- steps :: s.status == Passed
    ensures Worst(Statuses(steps)) == Passed
  {
    assert forall s <- Statuses(steps) :: s == Passed;
  }

  /**
   * A forest whose steps and concepts all passed, within the depth limit, is passed throughout; without strict imports
   * only such a forest is.
   */
  lemma {:induction false} AllPassedExactly(cfg: Config, items: seq<Item>, depth: nat, nodes: seq<StepResult>)
    requires IsTree(cfg, items, depth, nodes)
    ensures PassedThroughout(cfg.maxDepth, items, depth) ==> AllPassed(nodes)
    ensures !cfg.strictImports && AllPassed(nodes) ==> PassedThroughout(cfg.maxDepth, items, depth)
    decreases nodes
  {
    if depth <= cfg.maxDepth {
      var kept := BeforeFailure(cfg, Retained(items));
      KeptAreItems(cfg, items);
      KeptAreItems(cfg, Retained(items));
      forall i | 0 <= i < |kept|
        ensures HasPassed(cfg.maxDepth, kept[i], depth) ==> nodes[i].status == Passed && AllPassed(nodes[i].steps)
        ensures !cfg.strictImports && nodes[i].status == Passed && AllPassed(nodes[i].steps) ==>
          HasPassed(cfg.maxDepth, kept[i], depth)
      {
        assert IsNode(cfg, kept[i], depth, nodes[i]);
        if ChildrenOf(kept[i]) != [] {
          AllPassedExactly(cfg, ChildrenOf(kept[i]), depth + 1, nodes[i].steps);
        }
        NodePassed(cfg, kept[i], depth, nodes[i]);
      }
      assert forall i :: 0 <= i < |kept| ==> kept[i] in kept;
      if !cfg.strictImports && AllPassed(nodes) {
        AllImportable(cfg, items);
        forall i | 0 <= i < |items| ensures HasPassed(cfg.maxDepth, items[i], depth) {
          if StepOf(items[i]).Some? {
            assert items[i] in items && items[i] in kept;
            var j :| 0 <= j < |kept| && kept[j] == items[i];
            assert nodes[j] in nodes;
          }
        }
      }
    } else {
      assert nodes[0] in nodes;
    }
  }

  /**
   * A passed step passed all the way down, in every group of a scenario; a concept cut at the depth
   * limit has a broken marker below it, so it never passes.
   */
  lemma PassedScenarioGroups(cfg: Config, sections: seq<Section>, cursor: int64, parent: Range, group: StepResult)
    requires MapSections(cfg, sections, cursor, parent).Some?
    requires group in MapSections(cfg, sections, cursor, parent).value && group.status == Passed
    ensures AllPassed([group])
  {
    SectionsPassHonestly(cfg, sections, cursor, parent);
    HonestyIsTransitive([group]);
  }

  lemma {:induction false} SectionsPassHonestly(cfg: Config, sections: seq<Section>, cursor: int64, parent: Range)
    ensures match MapSections(cfg, sections, cursor, parent)
            case None => true
            case Some(groups) => PassesHonestly(groups)
  {
    if sections == [] {
    } else if sections[0].mode == Fixtures {
      SectionsPassHonestly(cfg, sections[1..], cursor, parent);
    } else {
      var m := MapItems(cfg, sections[0].items, cursor, parent, 0);
      MapItemsPassHonestly(cfg, sections[0].items, cursor, parent, 0);
      if m.steps != [] && Worst(Statuses(m.steps)) == Passed {
        PassedAggregate(m.steps);
      }
      SectionsPassHonestly(cfg, sections[1..], m.cursor, parent);
    }
  }
}
