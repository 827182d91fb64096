/** internal/mapping/mapping.go: test parameters, their privacy, and what of them enters the history id. */
module Parameters {
  import opened Wrappers
  import opened Text
  import opened Identity
  import opened Status
  import opened StepTree

  /** Which names each configured pattern list matches, and the digest of private values. */
  datatype Privacy = Privacy(promote: string -> bool, mask: string -> bool, hide: string -> bool,
                             exclude: string -> bool, digest: string -> string)

  datatype Visibility = Plain | Masked | Hidden

  datatype Parameter = Parameter(name: string, value: string, visibility: Visibility, excluded: bool)

  datatype Table = Table(headers: seq<string>, rows: seq<seq<string>>)

  type RowIndex = x: int32 | 0 <= x

  /** A row of a scenario table (the row itself or an index into `data`), or an index into the spec's table. */
  datatype TableRow = TableRow(isScenarioTable: bool, specRow: int32, scenarioRow: RowIndex,
                               data: Option<Table>, row: seq<seq<string>>)

  /** privateParameter: what is shown, and what enters the history id. */
  function PrivateParameter(privacy: Privacy, name: string, value: string): (r: (Parameter, string))
    ensures r.0.name == name && (r.0.excluded <==> privacy.exclude(name))
    ensures r.0.visibility == Hidden <==> privacy.hide(name)
    ensures r.0.visibility == Plain <==> !privacy.hide(name) && !privacy.mask(name)
    ensures r.0.value == match r.0.visibility case Plain => value case Masked => "[MASKED]" case Hidden => "[HIDDEN]"
    ensures r.1 == if r.0.visibility == Plain then value else privacy.digest(value)
  {
    var masked := if privacy.mask(name) then (Parameter(name, "[MASKED]", Masked, false), privacy.digest(value))
                  else (Parameter(name, value, Plain, false), value);
    var hidden := if privacy.hide(name) then (Parameter(name, "[HIDDEN]", Hidden, false), privacy.digest(value))
      else masked;
    (hidden.0.(excluded := privacy.exclude(name)), hidden.1)
  }

  // ---------------------------------------------------------------- naming

  function Occurrences(names: seq<string>, name: string): nat {
    if names == [] then 0 else Occurrences(names[..|names| - 1], name) + if names[|names| - 1] == name then 1 else 0
  }

  /** The n-th column of a name gets the suffix _n from the second on. */
  function FinalName(columns: seq<(string, string)>, i: nat): string
    requires i < |columns|
  {
    Suffixed(columns[i].0, Occurrences(Names(columns[..i + 1]), columns[i].0))
  }

  function Suffixed(name: string, count: nat): string {
    if count > 1 then name + "_" + Decimal(count) else name
  }

  function Names(columns: seq<(string, string)>): (r: seq<string>)
    ensures |r| == |columns| && forall i :: 0 <= i < |r| ==> r[i] == columns[i].0
  {
    seq(|columns|, i requires 0 <= i < |columns| => columns[i].0)
  }

  /** The parameters of the first n columns. */
  function ParametersOf(privacy: Privacy, columns: seq<(string, string)>, n: nat): seq<Parameter>
    requires n <= |columns|
  {
    if n == 0 then []
    else ParametersOf(privacy, columns, n - 1) +
         [PrivateParameter(privacy, FinalName(columns, n - 1), columns[n - 1].1).0]
  }

  /** What one column contributes to the history id. */
  function LogicalEntry(privacy: Privacy, name: string, value: string): seq<(string, string)> {
    var (parameter, identity) := PrivateParameter(privacy, name, value);
    if parameter.excluded then [] else [(name, identity)]
  }

  /** The names and values of the first n columns that enter the history id. */
  function LogicalOf(privacy: Privacy, columns: seq<(string, string)>, n: nat): seq<(string, string)>
    requires n <= |columns|
  {
    if n == 0 then []
    else LogicalOf(privacy, columns, n - 1) + LogicalEntry(privacy, FinalName(columns, n - 1), columns[n - 1].1)
  }

  lemma OccurrencesOfNext(columns: seq<(string, string)>, i: nat, name: string)
    requires i < |columns|
    ensures Occurrences(Names(columns[..i + 1]), name) ==
            Occurrences(Names(columns[..i]), name) + if columns[i].0 == name then 1 else 0
  {
    assert Names(columns[..i + 1])[..i] == Names(columns[..i]);
  }

  function CountIn(names: map<string, nat>, name: string): nat {
    if name in names then names[name] else 0
  }

  /** The counters agree with the first n columns. */
  ghost predicate Counted(names: map<string, nat>, columns: seq<(string, string)>, n: nat)
    requires n <= |columns|
  {
    forall name {:trigger CountIn(names, name)} :: CountIn(names, name) == Occurrences(Names(columns[..n]), name)
  }

  lemma CountNext(names: map<string, nat>, columns: seq<(string, string)>, i: nat)
    requires i < |columns| && Counted(names, columns, i)
    ensures var count := CountIn(names, columns[i].0) + 1;
            && Counted(names[columns[i].0 := count], columns, i + 1)
            && FinalName(columns, i) == Suffixed(columns[i].0, count)
  {
    var next := names[columns[i].0 := CountIn(names, columns[i].0) + 1];
    forall name ensures CountIn(next, name) == Occurrences(Names(columns[..i + 1]), name) {
      OccurrencesOfNext(columns, i, name);
      assert CountIn(names, name) == Occurrences(Names(columns[..i]), name);
    }
    OccurrencesOfNext(columns, i, columns[i].0);
  }

  /** The loop shared by testParameters and promotedParameters: a counter per name, two growing lists. */
  method RunParameters(privacy: Privacy, columns: seq<(string, string)>)
    returns (parameters: seq<Parameter>, logical: seq<(string, string)>)
    ensures parameters == ParametersOf(privacy, columns, |columns|)
    ensures logical == LogicalOf(privacy, columns, |columns|)
  {
    parameters, logical := [], [];
    var names: map<string, nat> := map[];
    for i := 0 to |columns|
      invariant parameters == ParametersOf(privacy, columns, i)
      invariant logical == LogicalOf(privacy, columns, i)
      invariant Counted(names, columns, i)
    {
      CountNext(names, columns, i);
      var count := CountIn(names, columns[i].0) + 1;
      names := names[columns[i].0 := count];
      var name := Suffixed(columns[i].0, count);
      var (parameter, identity) := PrivateParameter(privacy, name, columns[i].1);
      parameters := parameters + [parameter];
      if !parameter.excluded {
        logical := logical + [(name, identity)];
      }
    }
  }

  // ---------------------------------------------------------------- where the columns come from

  /** The cells testParameters picks, each under its header or its position. */
  function TableColumns(row: Option<TableRow>, specTable: Option<Table>): seq<(string, string)> {
    match row
    case None => []
    case Some(driven) =>
      if driven.isScenarioTable then
        var headers := if driven.data.Some? then driven.data.value.headers else [];
        var cells := if driven.row != [] then driven.row[0] else [];
        if cells == [] && driven.data.Some? && driven.scenarioRow < |driven.data.value.rows|
        then WithHeaders(headers, driven.data.value.rows[driven.scenarioRow])
        else WithHeaders(headers, cells)
      else if specTable.Some? && 0 <= driven.specRow < |specTable.value.rows|
      then WithHeaders(specTable.value.headers, specTable.value.rows[driven.specRow])
      else []
  }

  function WithHeaders(headers: seq<string>, cells: seq<string>): seq<(string, string)> {
    seq(|cells|, i requires 0 <= i < |cells| =>
      (if i < |headers| && !IsBlank(headers[i]) then headers[i] else "column_" + Decimal(i + 1), cells[i]))
  }

  /** Which cells a row takes, and the headers above them: its own, or those at its index in a table, or none. */
  predicate TakesCells(row: Option<TableRow>, specTable: Option<Table>, headers: seq<string>, cells: seq<string>) {
    match row
    case None => cells == []
    case Some(TableRow(true, _, index, data, own)) =>
      && headers == (if data.Some? then data.value.headers else [])
      && (own != [] && own[0] != [] ==> cells == own[0])
      && (own == [] || own[0] == [] ==>
            if data.Some? && index < |data.value.rows| then cells == data.value.rows[index] else cells == [])
    case Some(TableRow(false, index, _, _, _)) =>
      if specTable.Some? && 0 <= index < |specTable.value.rows|
      then headers == specTable.value.headers && cells == specTable.value.rows[index] else cells == []
  }

  /** A cell goes by its header, or by its position where that is missing or blank. */
  predicate IsColumn(headers: seq<string>, cells: seq<string>, i: nat, column: (string, string))
    requires i < |cells|
  {
    && column.1 == cells[i]
    && (i < |headers| && !IsBlank(headers[i]) ==> column.0 == headers[i])
    && (i >= |headers| || IsBlank(headers[i]) ==> column.0 == "column_" + Decimal(i + 1))
  }

  ghost predicate AreColumns(headers: seq<string>, cells: seq<string>, columns: seq<(string, string)>) {
    |columns| == |cells| && forall i: nat :: i < |cells| ==> IsColumn(headers, cells, i, columns[i])
  }

  lemma HeadedCells(headers: seq<string>, cells: seq<string>)
    ensures AreColumns(headers, cells, WithHeaders(headers, cells))
  {
    forall i: nat | i < |cells| ensures IsColumn(headers, cells, i, WithHeaders(headers, cells)[i]) {
    }
  }

  lemma CellsOfRow(row: Option<TableRow>, specTable: Option<Table>) returns (headers: seq<string>, cells: seq<string>)
    ensures TakesCells(row, specTable, headers, cells) && TableColumns(row, specTable) == WithHeaders(headers, cells)
  {
    headers, cells := [], [];
    if row.Some? {
      var driven := row.value;
      if driven.isScenarioTable {
        headers := if driven.data.Some? then driven.data.value.headers else [];
        cells := if driven.row != [] then driven.row[0] else [];
        if cells == [] && driven.data.Some? && driven.scenarioRow < |driven.data.value.rows| {
          cells := driven.data.value.rows[driven.scenarioRow];
        }
      } else if specTable.Some? && 0 <= driven.specRow < |specTable.value.rows| {
        headers, cells := specTable.value.headers, specTable.value.rows[driven.specRow];
      }
    }
  }

  /** The columns of a row are the cells it takes, each under its header or its position. */
  lemma TableColumnsExactly(row: Option<TableRow>, specTable: Option<Table>)
    returns (headers: seq<string>, cells: seq<string>)
    ensures TakesCells(row, specTable, headers, cells)
    ensures AreColumns(headers, cells, TableColumns(row, specTable))
  {
    headers, cells := CellsOfRow(row, specTable);
    HeadedCells(headers, cells);
  }

  lemma CellsAreUnique(row: Option<TableRow>, specTable: Option<Table>, headers: seq<string>, cells: seq<string>,
                       headers': seq<string>, cells': seq<string>)
    requires TakesCells(row, specTable, headers, cells) && TakesCells(row, specTable, headers', cells')
    ensures cells == cells' && (cells != [] ==> headers == headers')
  {
  }

  /** The arguments of all steps in the order promotedParameters visits them: a concept's children first. */
  function Arguments(items: seq<Item>): seq<(string, string)>
    decreases items, 1
  {
    if items == [] then [] else ItemArguments(items[0]) + Arguments(items[1..])
  }

  function ItemArguments(item: Item): seq<(string, string)>
    decreases item, 0
  {
    (if ChildrenOf(item) == [] then [] else Arguments(ChildrenOf(item))) +
    (if StepOf(item).None? then [] else StepOf(item).value.arguments)
  }

  /** What a promoted argument goes by: its name, or its position among them if that is blank. */
  function ArgumentName(name: string, position: nat): string {
    First([name, "arg_" + Decimal(position)])
  }

  function Promoted(promote: string -> bool, naming: (string, nat) -> string,
                    arguments: seq<(string, string)>): seq<(string, string)> {
    if arguments == [] then []
    else
      var last := arguments[|arguments| - 1];
      var before := Promoted(promote, naming, arguments[..|arguments| - 1]);
      if promote(last.0) then before + [(naming(last.0, |before| + 1), last.1)] else before
  }

  function Flat<T, U>(parts: T -> seq<U>, xs: seq<T>): seq<U> {
    if xs == [] then [] else parts(xs[0]) + Flat(parts, xs[1..])
  }

  lemma {:induction false} FlatConcat<T, U>(parts: T -> seq<U>, a: seq<T>, b: seq<T>)
    ensures Flat(parts, a + b) == Flat(parts, a) + Flat(parts, b)
  {
    if a == [] {
      assert a + b == b;
    } else {
      assert (a + b)[1..] == a[1..] + b;
      FlatConcat(parts, a[1..], b);
    }
  }

  lemma {:induction false} ArgumentsAreFlat(parts: Item -> seq<(string, string)>, items: seq<Item>)
    requires forall item :: parts(item) == ItemArguments(item)
    ensures Arguments(items) == Flat(parts, items)
  {
    if items != [] {
      ArgumentsAreFlat(parts, items[1..]);
      assert parts(items[0]) == ItemArguments(items[0]);
    }
  }

  /** Item after item. */
  lemma ArgumentsConcat(a: seq<Item>, b: seq<Item>)
    ensures Arguments(a + b) == Arguments(a) + Arguments(b)
  {
    FlatConcat(ItemArguments, a, b);
    ArgumentsAreFlat(ItemArguments, a);
    ArgumentsAreFlat(ItemArguments, b);
    ArgumentsAreFlat(ItemArguments, a + b);
  }

  /** A step contributes its arguments, a concept those of its items and then its own; nothing else does. */
  lemma ArgumentsExactly(step: Step, children: seq<Item>, execution: Option<StepExecution>)
    ensures Arguments([StepItem(Some(step))]) == step.arguments
    ensures Arguments([ConceptItem(Some(Concept(Some(step), children, execution)))]) ==
            Arguments(children) + step.arguments
    ensures Arguments([ConceptItem(Some(Concept(None, children, execution)))]) == Arguments(children)
    ensures forall item :: item in {NilItem, OtherItem, StepItem(None), ConceptItem(None)} ==> Arguments([item]) == []
  {
    forall item: Item ensures Arguments([item]) == ItemArguments(item) {
      assert [item][1..] == [];
    }
  }

  /** Which of the first n arguments are promoted. */
  function PromotedBefore(promote: string -> bool, arguments: seq<(string, string)>, n: nat): set<nat>
    requires n <= |arguments|
  {
    set i: nat | i < n && promote(arguments[i].0)
  }

  lemma {:induction false} PromotedLength(promote: string -> bool, naming: (string, nat) -> string,
                                          arguments: seq<(string, string)>)
    ensures |Promoted(promote, naming, arguments)| == |PromotedBefore(promote, arguments, |arguments|)|
  {
    if arguments == [] {
      assert PromotedBefore(promote, arguments, 0) == {};
    } else {
      var n := |arguments| - 1;
      PromotedLength(promote, naming, arguments[..n]);
      assert PromotedBefore(promote, arguments[..n], n) == PromotedBefore(promote, arguments, n);
      assert PromotedBefore(promote, arguments, n + 1) ==
        PromotedBefore(promote, arguments, n) + if promote(arguments[n].0) then {n} else {};
    }
  }

  /** The promoted arguments, and only they, in order: each keeps its value and is named by its name and position. */
  lemma {:induction false} PromotedAt(promote: string -> bool, naming: (string, nat) -> string,
                                      arguments: seq<(string, string)>, i: nat)
    requires i < |arguments| && promote(arguments[i].0)
    ensures var k := |PromotedBefore(promote, arguments, i)|;
            && k < |Promoted(promote, naming, arguments)|
            && Promoted(promote, naming, arguments)[k] == (naming(arguments[i].0, k + 1), arguments[i].1)
  {
    var n := |arguments| - 1;
    assert PromotedBefore(promote, arguments[..n], i) == PromotedBefore(promote, arguments, i);
    if i < n {
      PromotedAt(promote, naming, arguments[..n], i);
    } else {
      PromotedLength(promote, naming, arguments[..n]);
    }
  }

  lemma ArgumentNameExactly(name: string, position: nat)
    ensures ArgumentName(name, position) == if IsBlank(name) then "arg_" + Decimal(position) else name
  {
    var text := "arg_" + Decimal(position);
    assert text[0] == 'a' && !IsSpace(text[0]);
    StartsInk(text);
    FirstExactly([name, text], if IsBlank(name) then 1 else 0);
  }

  // ---------------------------------------------------------------- what the history id does not see

  /** Same names, and values that differ only where policy keeps the difference out of the history id. */
  ghost predicate HistoryEquivalent(privacy: Privacy, a: seq<(string, string)>, b: seq<(string, string)>) {
    && |a| == |b| && Names(a) == Names(b)
    && forall i: nat :: i < |a| ==> IsHiddenDifference(privacy, a, b, i)
  }

  predicate IsHiddenDifference(privacy: Privacy, a: seq<(string, string)>, b: seq<(string, string)>, i: nat)
    requires i < |a| == |b|
  {
    var name := FinalName(a, i);
    || a[i].1 == b[i].1
    || privacy.exclude(name)
    || ((privacy.mask(name) || privacy.hide(name)) && privacy.digest(a[i].1) == privacy.digest(b[i].1))
  }

  /** What each column contributes to the history id. */
  function LogicalEntries(privacy: Privacy, columns: seq<(string, string)>): (r: seq<seq<(string, string)>>)
    ensures |r| == |columns|
    ensures forall i: nat :: i < |r| ==> r[i] == LogicalEntry(privacy, FinalName(columns, i), columns[i].1)
  {
    seq(|columns|, i requires 0 <= i < |columns| => LogicalEntry(privacy, FinalName(columns, i), columns[i].1))
  }

  function Joined<T>(parts: seq<seq<T>>, n: nat): seq<T>
    requires n <= |parts|
  {
    if n == 0 then [] else Joined(parts, n - 1) + parts[n - 1]
  }

  lemma {:induction false} JoinedNothing<T>(parts: seq<seq<T>>, n: nat)
    requires n <= |parts|
    ensures Joined(parts, n) == [] <==> forall i: nat :: i < n ==> parts[i] == []
  {
    if n > 0 {
      JoinedNothing(parts, n - 1);
      assert |Joined(parts, n)| == |Joined(parts, n - 1)| + |parts[n - 1]|;
    }
  }

  /** A list that grows by one entry at a time. */
  lemma {:induction false} Accumulates<T>(f: nat -> seq<T>, entries: seq<T>, n: nat)
    requires n <= |entries| && f(0) == [] && forall i: nat :: i < n ==> f(i + 1) == f(i) + [entries[i]]
    ensures |f(n)| == n && forall i :: 0 <= i < n ==> f(n)[i] == entries[i]
  {
    if n > 0 {
      Accumulates(f, entries, n - 1);
    }
  }

  /** A list that grows by one part at a time. */
  lemma {:induction false} JoinsUp<T>(f: nat -> seq<T>, parts: seq<seq<T>>, n: nat)
    requires n <= |parts| && f(0) == [] && forall i: nat :: i < n ==> f(i + 1) == f(i) + parts[i]
    ensures f(n) == Joined(parts, n)
  {
    if n > 0 {
      JoinsUp(f, parts, n - 1);
    }
  }

  lemma EntryFollows(privacy: Privacy, columns: seq<(string, string)>, i: nat, name: string,
                     entry: seq<(string, string)>)
    requires i < |columns| && name == FinalName(columns, i) && entry == LogicalEntry(privacy, name, columns[i].1)
    ensures LogicalOf(privacy, columns, i + 1) == LogicalOf(privacy, columns, i) + entry
  {
  }

  lemma LogicalIsJoined(privacy: Privacy, columns: seq<(string, string)>, n: nat)
    requires n <= |columns|
    ensures LogicalOf(privacy, columns, n) == Joined(LogicalEntries(privacy, columns), n)
  {
    var entries := LogicalEntries(privacy, columns);
    var f := (i: nat) => if i <= |columns| then LogicalOf(privacy, columns, i) else [];
    forall i: nat | i < n ensures f(i + 1) == f(i) + entries[i] {
      EntryFollows(privacy, columns, i, FinalName(columns, i), entries[i]);
    }
    JoinsUp(f, entries, n);
  }

  // ---------------------------------------------------------------- each column for itself

  /** Those of the first n columns that have this name. */
  function Namesakes(columns: seq<(string, string)>, n: nat, name: string): set<nat>
    requires n <= |columns|
  {
    set j: nat | j < n && columns[j].0 == name
  }

  lemma NamesakesNext(columns: seq<(string, string)>, n: nat, name: string)
    requires n < |columns|
    ensures |Namesakes(columns, n + 1, name)| ==
      |Namesakes(columns, n, name)| + if columns[n].0 == name then 1 else 0
  {
    assert Namesakes(columns, n + 1, name) ==
      Namesakes(columns, n, name) + if columns[n].0 == name then {n} else {};
  }

  lemma {:induction false} OccurrencesCount(columns: seq<(string, string)>, n: nat, name: string)
    requires n <= |columns|
    ensures Occurrences(Names(columns[..n]), name) == |Namesakes(columns, n, name)|
  {
    if n == 0 {
      assert Namesakes(columns, n, name) == {};
    } else {
      OccurrencesCount(columns, n - 1, name);
      OccurrencesOfNext(columns, n - 1, name);
      NamesakesNext(columns, n - 1, name);
    }
  }

  /** The first column of a name keeps it, the k-th gets the suffix _k. */
  lemma FinalNameExactly(columns: seq<(string, string)>, i: nat)
    requires i < |columns|
    ensures var k := |Namesakes(columns, i + 1, columns[i].0)|;
            k >= 1 && FinalName(columns, i) == if k == 1 then columns[i].0 else columns[i].0 + "_" + Decimal(k)
  {
    OccurrencesCount(columns, i + 1, columns[i].0);
    assert i in Namesakes(columns, i + 1, columns[i].0);
  }

  function Shown(privacy: Privacy, columns: seq<(string, string)>, i: nat): Parameter
    requires i < |columns|
  {
    PrivateParameter(privacy, FinalName(columns, i), columns[i].1).0
  }

  lemma ParameterFollows(privacy: Privacy, columns: seq<(string, string)>, i: nat, name: string, parameter: Parameter)
    requires i < |columns| && name == FinalName(columns, i)
    requires parameter == PrivateParameter(privacy, name, columns[i].1).0
    ensures ParametersOf(privacy, columns, i + 1) == ParametersOf(privacy, columns, i) + [parameter]
  {
  }

  /** Each column becomes one parameter, in order, under its final name and as its policy says. */
  lemma ParametersExactly(privacy: Privacy, columns: seq<(string, string)>)
    ensures var parameters := ParametersOf(privacy, columns, |columns|);
            |parameters| == |columns| && forall i: nat :: i < |columns| ==> parameters[i] == Shown(privacy, columns, i)
  {
    var all := seq(|columns|, i requires 0 <= i < |columns| => Shown(privacy, columns, i));
    var f := (n: nat) => if n <= |columns| then ParametersOf(privacy, columns, n) else [];
    forall i: nat | i < |columns| ensures f(i + 1) == f(i) + [all[i]] {
      ParameterFollows(privacy, columns, i, FinalName(columns, i), all[i]);
    }
    Accumulates(f, all, |columns|);
  }

  /** The places of the non-empty parts among the first n. */
  ghost function Filled<T>(parts: seq<seq<T>>, n: nat): set<nat>
    requires n <= |parts|
  {
    set i: nat | i < n && parts[i] != []
  }

  ghost predicate AtMostOne<T>(parts: seq<seq<T>>) {
    forall part <- parts :: |part| <= 1
  }

  lemma FilledNext<T>(parts: seq<seq<T>>, n: nat)
    requires n < |parts|
    ensures |Filled(parts, n + 1)| == |Filled(parts, n)| + if parts[n] != [] then 1 else 0
  {
    assert Filled(parts, n + 1) == Filled(parts, n) + if parts[n] != [] then {n} else {};
  }

  lemma {:induction false} JoinedLength<T>(parts: seq<seq<T>>, n: nat)
    requires n <= |parts| && AtMostOne(parts)
    ensures |Joined(parts, n)| == |Filled(parts, n)|
  {
    if n == 0 {
      assert Filled(parts, n) == {};
    } else {
      JoinedLength(parts, n - 1);
      FilledNext(parts, n - 1);
      assert parts[n - 1] in parts;
    }
  }

  lemma {:induction false} JoinedAt<T>(parts: seq<seq<T>>, n: nat, i: nat)
    requires i < n <= |parts| && AtMostOne(parts) && parts[i] != []
    ensures |Joined(parts, i)| < |Joined(parts, n)| && Joined(parts, n)[|Joined(parts, i)|] == parts[i][0]
  {
    assert parts[n - 1] in parts;
    if i < n - 1 {
      JoinedAt(parts, n - 1, i);
    }
  }

  lemma EntriesAreSingle(privacy: Privacy, columns: seq<(string, string)>)
    ensures AtMostOne(LogicalEntries(privacy, columns))
  {
    var entries := LogicalEntries(privacy, columns);
    forall i: nat | i < |entries| ensures |entries[i]| <= 1 {
      EntryExactly(privacy, FinalName(columns, i), columns[i].1);
    }
  }

  lemma EntryExactly(privacy: Privacy, name: string, value: string)
    ensures LogicalEntry(privacy, name, value) ==
            if privacy.exclude(name) then []
            else [(name, if privacy.mask(name) || privacy.hide(name) then privacy.digest(value) else value)]
  {
  }

  /** The columns among the first n that enter the history id. */
  ghost function Included(privacy: Privacy, columns: seq<(string, string)>, n: nat): set<nat>
    requires n <= |columns|
  {
    set i: nat | i < n && !privacy.exclude(FinalName(columns, i))
  }

  /**
   * The k-th column that is not excluded is the k-th entry of the history id: under its final name, with its value or,
   * if it is private, the digest of that.
   */
  lemma LogicalAt(privacy: Privacy, columns: seq<(string, string)>, i: nat, name: string)
    requires i < |columns| && name == FinalName(columns, i) && !privacy.exclude(name)
    ensures var all, k := LogicalOf(privacy, columns, |columns|), |Included(privacy, columns, i)|;
            && k < |all| == |Included(privacy, columns, |columns|)|
            && all[k] ==
               (name, if privacy.mask(name) || privacy.hide(name) then privacy.digest(columns[i].1) else columns[i].1)
  {
    var entries := LogicalEntries(privacy, columns);
    LogicalIsJoined(privacy, columns, |columns|);
    EntriesAreSingle(privacy, columns);
    JoinedLength(entries, i);
    JoinedLength(entries, |columns|);
    JoinedAt(entries, |columns|, i);
    EntryExactly(privacy, name, columns[i].1);
    FilledAreIncluded(privacy, columns, i);
    FilledAreIncluded(privacy, columns, |columns|);
  }

  lemma FilledAreIncluded(privacy: Privacy, columns: seq<(string, string)>, n: nat)
    requires n <= |columns|
    ensures Filled(LogicalEntries(privacy, columns), n) == Included(privacy, columns, n)
  {
    forall i: nat | i < n
      ensures LogicalEntries(privacy, columns)[i] == [] <==> privacy.exclude(FinalName(columns, i))
    {
      EntryExactly(privacy, FinalName(columns, i), columns[i].1);
    }
  }

  /**
   * Columns of the same names have different history entries as soon as they differ in one that is neither excluded nor
   * private, whatever follows.
   */
  lemma DifferenceShows(privacy: Privacy, a: seq<(string, string)>, b: seq<(string, string)>, i: nat, name: string,
                        rest: seq<(string, string)>, rest': seq<(string, string)>)
    requires i < |a| && i < |b| && (forall j :: 0 <= j <= i ==> a[j].0 == b[j].0) && a[i].1 != b[i].1
    requires name == FinalName(a, i) && !privacy.exclude(name) && !privacy.mask(name) && !privacy.hide(name)
    ensures LogicalOf(privacy, a, |a|) + rest != LogicalOf(privacy, b, |b|) + rest'
  {
    forall j: nat | j <= i ensures FinalName(a, j) == FinalName(b, j) {
      assert Names(a[..j + 1]) == Names(b[..j + 1]);
    }
    assert Included(privacy, a, i) == Included(privacy, b, i);
    LogicalAt(privacy, a, i, name);
    LogicalAt(privacy, b, i, name);
    var k := |Included(privacy, a, i)|;
    assert (LogicalOf(privacy, a, |a|) + rest)[k] == (name, a[i].1);
    assert (LogicalOf(privacy, b, |b|) + rest')[k] == (name, b[i].1);
  }

  lemma SameFinalNames(a: seq<(string, string)>, b: seq<(string, string)>, i: nat)
    requires Names(a) == Names(b) && i < |a| && i < |b|
    ensures FinalName(a, i) == FinalName(b, i)
  {
    assert Names(a)[i] == Names(b)[i];
    assert Names(a[..i + 1]) == Names(a)[..i + 1] == Names(b)[..i + 1] == Names(b[..i + 1]);
  }

  lemma SameLogicalEntry(privacy: Privacy, a: seq<(string, string)>, b: seq<(string, string)>, i: nat)
    requires HistoryEquivalent(privacy, a, b) && i < |a|
    ensures LogicalEntry(privacy, FinalName(a, i), a[i].1) == LogicalEntry(privacy, FinalName(b, i), b[i].1)
  {
    SameFinalNames(a, b, i);
    assert IsHiddenDifference(privacy, a, b, i);
  }

  /** Values of history-excluded parameters, and private values beyond their digest, do not enter the history id. */
  lemma LogicalIgnoresPolicy(privacy: Privacy, a: seq<(string, string)>, b: seq<(string, string)>, n: nat)
    requires n <= |a| && HistoryEquivalent(privacy, a, b)
    ensures |a| == |b| && LogicalOf(privacy, a, n) == LogicalOf(privacy, b, n)
  {
    var entries, entries' := LogicalEntries(privacy, a), LogicalEntries(privacy, b);
    forall i: nat | i < |entries| ensures entries[i] == entries'[i] {
      SameLogicalEntry(privacy, a, b, i);
    }
    assert entries == entries';
    LogicalIsJoined(privacy, a, n);
    LogicalIsJoined(privacy, b, n);
  }

  lemma EmptyEntryExactly(privacy: Privacy, name: string, value: string)
    ensures LogicalEntry(privacy, name, value) == [] <==> privacy.exclude(name)
  {
  }

  /** A row whose columns are all excluded leaves no trace in the history id, and only such a row. */
  lemma NothingLogicalExactly(privacy: Privacy, columns: seq<(string, string)>, n: nat)
    requires n <= |columns|
    ensures LogicalOf(privacy, columns, n) == [] <==> forall i: nat :: i < n ==> privacy.exclude(FinalName(columns, i))
  {
    var entries := LogicalEntries(privacy, columns);
    LogicalIsJoined(privacy, columns, n);
    JoinedNothing(entries, n);
    forall i: nat | i < n ensures entries[i] == [] <==> privacy.exclude(FinalName(columns, i)) {
      EmptyEntryExactly(privacy, FinalName(columns, i), columns[i].1);
    }
  }
}
