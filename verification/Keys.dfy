/** Attempt keys, scenario identities and the text history ids are hashed from. */
module Keys {
  import opened Int64
  import opened Text
  import opened Identity

  // ---------------------------------------------------------------- attempt keys

  function WithField(s: string, name: string, n: int): string {
    s + ['#'] + (name + "=" + Decimal(n))
  }

  /** identity.AttemptKey */
  function AttemptKey(canonical: string, specRow: int32, scenarioRow: int32, retry: int32): string {
    WithField(WithField(WithField(canonical, "spec-row", specRow), "scenario-row", scenarioRow), "retry", retry)
  }

  lemma WithFieldInjective(a: string, b: string, name: string, m: int, n: int)
    requires '#' !in name && WithField(a, name, m) == WithField(b, name, n)
    ensures a == b && m == n
  {
    var s, t := name + "=" + Decimal(m), name + "=" + Decimal(n);
    LastSeparatorSplits(a, b, '#', s, t);
    assert Decimal(m) == s[|name| + 1..] && Decimal(n) == t[|name| + 1..];
    DecimalInjective(m, n);
  }

  /** The key determines all four components, whatever text the canonical identity holds. */
  lemma AttemptKeyInjective(c: string, specRow: int32, scenarioRow: int32, retry: int32, c': string, specRow': int32,
                            scenarioRow': int32, retry': int32)
    requires AttemptKey(c, specRow, scenarioRow, retry) == AttemptKey(c', specRow', scenarioRow', retry')
    ensures c == c' && specRow == specRow' && scenarioRow == scenarioRow' && retry == retry'
  {
    var a1, b1 := WithField(c, "spec-row", specRow), WithField(c', "spec-row", specRow');
    var a2, b2 := WithField(a1, "scenario-row", scenarioRow), WithField(b1, "scenario-row", scenarioRow');
    WithFieldInjective(a2, b2, "retry", retry, retry');
    WithFieldInjective(a1, b1, "scenario-row", scenarioRow, scenarioRow');
    WithFieldInjective(c, c', "spec-row", specRow, specRow');
  }

  lemma KeyStartsWithCanonical(canonical: string, specRow: int32, scenarioRow: int32, retry: int32)
    ensures canonical + "#" <= AttemptKey(canonical, specRow, scenarioRow, retry)
  {
    var a := WithField(canonical, "spec-row", specRow);
    var b := WithField(a, "scenario-row", scenarioRow);
    assert canonical + "#" <= a && a <= b && b <= WithField(b, "retry", retry);
  }

  const MAX_RETRY: int32 := 0x7fff_ffff

  /** mapping.retryIndex: the final suite counts attempts from one, lifecycle events count retries from zero. */
  function RetryIndex(attempts: int64): (r: int32)
    ensures 0 <= r
  {
    if attempts <= 1 then 0
    else if attempts > MAX_RETRY + 1 then MAX_RETRY
    else attempts - 1
  }

  /** A live key with zero-based `retry` meets the final key of `attempts` attempts exactly in these cases. */
  lemma RetriesMeetExactly(live: string, final: string, specRow: int32, scenarioRow: int32, retry: int32,
                           attempts: int64)
    requires 0 <= retry
    ensures (AttemptKey(live, specRow, scenarioRow, retry) ==
             AttemptKey(final, specRow, scenarioRow, RetryIndex(attempts))) <==>
            && live == final
            && (attempts == retry + 1 || (retry == 0 && attempts < 1) || (retry == MAX_RETRY && attempts > MAX_RETRY))
  {
    if AttemptKey(live, specRow, scenarioRow, retry) == AttemptKey(final, specRow, scenarioRow, RetryIndex(attempts)) {
      AttemptKeyInjective(live, specRow, scenarioRow, retry, final, specRow, scenarioRow, RetryIndex(attempts));
    }
  }

  // ---------------------------------------------------------------- scenario identities

  predicate IsWord(s: string) {
    s != "" && forall c <- s :: !IsSpace(c)
  }

  /** strings.Fields */
  function Fields(s: string): (words: seq<string>)
    ensures s != "" && !IsSpace(s[0]) ==> words != []
    ensures forall w <- words :: IsWord(w)
  {
    if s == "" then []
    else
      var rest := Fields(s[1..]);
      if IsSpace(s[0]) then rest
      else if |s| == 1 || IsSpace(s[1]) then [[s[0]]] + rest
      else
        assert rest[0] in rest && forall c <- [s[0]] + rest[0] :: c == s[0] || c in rest[0];
        [[s[0]] + rest[0]] + rest[1..]
  }

  function NormalizeText(value: string): string {
    Join(Fields(value), ' ')
  }

  /** The project name scenario identities start with. */
  function ShownProject(project: string): string {
    if NormalizeText(project) == "" then "Gauge project" else NormalizeText(project)
  }

  /** The scenario id, or lines and heading where there is none. */
  function StableName(id: string, heading: string, start: int64, end: int64): string {
    if IsBlank(id) then "L" + Decimal(start) + "-L" + Decimal(end) + ":" + NormalizeText(heading) else TrimSpace(id)
  }

  /** identity.Scenario */
  function ScenarioIdentity(project: string, path: string, id: string, heading: string, start: int64,
                            end: int64): string {
    ShownProject(project) + "::" + path + "::" + StableName(id, heading, start, end)
  }

  lemma FirstPartLeads(name: string, path: string, stable: string)
    ensures name + "::" <= name + "::" + path + "::" + stable
  {
    assert name + "::" + path + "::" + stable == name + "::" + (path + "::" + stable);
  }

  lemma IdentityStartsWithProject(project: string, path: string, id: string, heading: string, start: int64, end: int64)
    ensures ShownProject(project) + "::" <= ScenarioIdentity(project, path, id, heading, start, end)
  {
    FirstPartLeads(ShownProject(project), path, StableName(id, heading, start, end));
  }

  lemma IdentityDeterminesPath(project: string, path: string, path': string, id: string, heading: string, start: int64,
                               end: int64)
    requires ScenarioIdentity(project, path, id, heading, start, end) ==
      ScenarioIdentity(project, path', id, heading, start, end)
    ensures path == path'
  {
    MiddlePartDiffers(ShownProject(project), path, path', StableName(id, heading, start, end));
  }

  lemma MiddlePartDiffers(name: string, path: string, path': string, stable: string)
    requires name + "::" + path + "::" + stable == name + "::" + path' + "::" + stable
    ensures path == path'
  {
    var a, b := name + "::" + path + "::" + stable, name + "::" + path' + "::" + stable;
    assert a == b && |path| == |path'|;
    var from := |name + "::"|;
    assert path == a[from..from + |path|] && path' == b[from..from + |path|];
  }

  // ---------------------------------------------------------------- whitespace

  /** The words of a text, in order: whitespace separates them, however much of it there is. */
  lemma {:induction false} FieldsConcat(a: string, c: char, b: string)
    requires IsSpace(c)
    ensures Fields(a + ([c] + b)) == Fields(a) + Fields(b)
  {
    var gap := [c] + b;
    if a == "" {
      assert a + gap == gap && gap[1..] == b;
    } else {
      assert (a + gap)[1..] == a[1..] + gap;
      FieldsConcat(a[1..], c, b);
    }
  }

  lemma {:induction false} FieldsOfWord(w: string)
    requires IsWord(w)
    ensures Fields(w) == [w]
  {
    if |w| == 1 {
      assert w[1..] == "" && w == [w[0]];
    } else {
      assert forall c <- w[1..] :: c in w;
      FieldsOfWord(w[1..]);
      assert w == [w[0]] + w[1..];
    }
  }

  lemma WordsHoldNoSpace(words: seq<string>)
    requires forall w <- words :: IsWord(w)
    ensures forall w <- words :: ' ' !in w && w != ""
  {
    forall w | w in words ensures ' ' !in w {
      assert IsWord(w);
    }
  }

  lemma JoinedWords(words: seq<string>)
    requires forall w <- words :: IsWord(w)
    ensures Join(words, ' ') == "" <==> words == []
  {
    if words != [] {
      assert IsWord(words[0]);
    }
  }

  /** Normalised texts are equal exactly if they consist of the same words. */
  lemma NormalizeTextExactly(a: string, b: string)
    ensures NormalizeText(a) == NormalizeText(b) <==> Fields(a) == Fields(b)
  {
    WordsHoldNoSpace(Fields(a));
    WordsHoldNoSpace(Fields(b));
    JoinedWords(Fields(a));
    JoinedWords(Fields(b));
    if Fields(a) != [] && Fields(b) != [] {
      SplitJoin(Fields(a), ' ');
      SplitJoin(Fields(b), ' ');
    }
  }

  /** The words a project is shown by; a name without any stands for the default. */
  function ProjectWords(project: string): seq<string> {
    if Fields(project) == [] then ["Gauge", "project"] else Fields(project)
  }

  lemma TwoWords(first: string, second: string)
    requires ' ' !in first && ' ' !in second
    ensures Split(first + [' '] + second, ' ') == [first, second]
  {
    SplitAtSeparator(first, ' ', second);
    SplitWithoutSeparator(second, ' ');
  }

  lemma DefaultProject(shown: string)
    requires shown == "Gauge project"
    ensures Split(shown, ' ') == ["Gauge", "project"]
  {
    assert shown == "Gauge" + [' '] + "project";
    TwoWords("Gauge", "project");
  }

  /** The shown project is the text of these words with one space between any two. */
  lemma ShownProjectExactly(project: string, shown: string)
    ensures shown == ShownProject(project) <==> Split(shown, ' ') == ProjectWords(project)
  {
    JoinSplit(shown, ' ');
    WordsHoldNoSpace(Fields(project));
    JoinedWords(Fields(project));
    if Fields(project) == [] {
      DefaultProject("Gauge project");
      JoinSplit("Gauge project", ' ');
    } else {
      SplitJoin(Fields(project), ' ');
    }
  }

  // ---------------------------------------------------------------- scenarios have names of their own

  function LinesAndHeading(heading: string, start: int64, end: int64): string {
    "L" + Decimal(start) + "-L" + Decimal(end) + ":" + NormalizeText(heading)
  }

  lemma LinesSplit(a: string, b: string, a': string, b': string, n: string, n': string)
    requires ':' !in a && ':' !in b && ':' !in a' && ':' !in b' && 'L' !in b && 'L' !in b'
    requires "L" + a + "-L" + b + ":" + n == "L" + a' + "-L" + b' + ":" + n'
    ensures a == a' && b == b' && n == n'
  {
    var left, left' := ['L'] + a + ['-'], ['L'] + a' + ['-'];
    assert left + ['L'] + b + [':'] + n == "L" + a + "-L" + b + ":" + n;
    assert left' + ['L'] + b' + [':'] + n' == "L" + a' + "-L" + b' + ":" + n';
    FirstSeparatorSplits(left + ['L'] + b, left' + ['L'] + b', ':', n, n');
    LastSeparatorSplits(left, left', 'L', b, b');
    assert a == left[1..|left| - 1] && a' == left'[1..|left'| - 1];
  }

  /** Numbers as texts without ':' and 'L', one for each. */
  ghost predicate PrintsApart(decimal: int -> string) {
    && (forall n :: ':' !in decimal(n) && 'L' !in decimal(n))
    && (forall m, n :: decimal(m) == decimal(n) ==> m == n)
  }

  lemma DecimalPrintsApart()
    ensures PrintsApart(Decimal)
  {
    forall m, n | Decimal(m) == Decimal(n) ensures m == n {
      DecimalInjective(m, n);
    }
  }

  lemma LinesDiffer(decimal: int -> string, start: int, end: int, words: string, start': int, end': int, words': string)
    requires PrintsApart(decimal)
    requires "L" + decimal(start) + "-L" + decimal(end) + ":" + words ==
      "L" + decimal(start') + "-L" + decimal(end') + ":" + words'
    ensures start == start' && end == end' && words == words'
  {
    LinesSplit(decimal(start), decimal(end), decimal(start'), decimal(end'), words, words');
  }

  lemma LinesAndHeadingInjective(heading: string, start: int64, end: int64, heading': string, start': int64,
                                 end': int64)
    requires LinesAndHeading(heading, start, end) == LinesAndHeading(heading', start', end')
    ensures start == start' && end == end' && NormalizeText(heading) == NormalizeText(heading')
  {
    DecimalPrintsApart();
    LinesDiffer(Decimal, start, end, NormalizeText(heading), start', end', NormalizeText(heading'));
  }

  /**
   * What tells the scenarios of one file apart: the trimmed id; without one, both lines and the words of the heading.
   * An id and a heading meet exactly if the id spells out the lines and the heading.
   */
  predicate IsSameScenario(id: string, heading: string, start: int64, end: int64, id': string, heading': string,
                           start': int64, end': int64) {
    if IsBlank(id) && IsBlank(id') then start == start' && end == end' && Fields(heading) == Fields(heading')
    else if IsBlank(id) then TrimSpace(id') == LinesAndHeading(heading, start, end)
    else if IsBlank(id') then TrimSpace(id) == LinesAndHeading(heading', start', end')
    else TrimSpace(id) == TrimSpace(id')
  }

  lemma StableNamesAgreeExactly(id: string, heading: string, start: int64, end: int64, id': string, heading': string,
                                start': int64, end': int64)
    ensures StableName(id, heading, start, end) == StableName(id', heading', start', end') <==>
            IsSameScenario(id, heading, start, end, id', heading', start', end')
  {
    if IsBlank(id) && IsBlank(id') {
      NormalizeTextExactly(heading, heading');
      if LinesAndHeading(heading, start, end) == LinesAndHeading(heading', start', end') {
        LinesAndHeadingInjective(heading, start, end, heading', start', end');
      }
    }
  }

  lemma LastPartDiffers(before: string, a: string, b: string)
    ensures before + a == before + b <==> a == b
  {
    assert a == (before + a)[|before|..] && b == (before + b)[|before|..];
  }

  /** In one file of one project, identities are equal exactly for the same scenario. */
  lemma IdentityTellsScenarios(project: string, path: string, id: string, heading: string, start: int64, end: int64,
                               id': string, heading': string, start': int64, end': int64)
    ensures (ScenarioIdentity(project, path, id, heading, start, end) ==
             ScenarioIdentity(project, path, id', heading', start', end')) <==>
            IsSameScenario(id, heading, start, end, id', heading', start', end')
  {
    StableNamesAgreeExactly(id, heading, start, end, id', heading', start', end');
    LastPartDiffers(ShownProject(project) + "::" + path + "::", StableName(id, heading, start, end),
                    StableName(id', heading', start', end'));
  }

  // ---------------------------------------------------------------- identities across files

  /** Behind `p`, the separator and a character that can start a scenario's name, `q` goes on. */
  predicate LeadsInto(p: string, q: string) {
    |p| < |q| && p + "::" <= q + "::" && !IsSpace((q + "::")[|p| + 2])
  }

  /** What an identity can end in. */
  ghost predicate IsScenarioName(name: string) {
    exists id, heading, start, end {:trigger StableName(id, heading, start, end)} ::
      name == StableName(id, heading, start, end)
  }

  lemma NamesStartWithInk(name: string)
    requires IsScenarioName(name)
    ensures name != "" && !IsSpace(name[0])
  {
    var id, heading, start, end :| name == StableName(id, heading, start, end);
    if IsBlank(id) {
      assert LinesAndHeading(heading, start, end)[0] == 'L';
    }
  }

  lemma TrimmedIsName(id: string)
    requires id != "" && !IsSpace(id[0]) && !IsSpace(id[|id| - 1])
    ensures IsScenarioName(id)
  {
    TrimmedStays(id);
    StartsInk(id);
    assert StableName(id, "", 0, 0) == id;
  }

  lemma SharedTextLeads(p: string, q: string, x: string, y: string)
    requires p + "::" + x == q + "::" + y && |p| < |q| && x != "" && !IsSpace(x[0])
    ensures LeadsInto(p, q)
  {
    var whole := p + "::" + x;
    assert p + "::" == whole[..|p| + 2] && q + "::" == whole[..|q| + 2];
    assert whole[|p| + 2] == x[0] && (q + "::")[|p| + 2] == whole[|p| + 2];
  }

  lemma LeadingMeets(p: string, q: string) returns (x: string)
    requires LeadsInto(p, q)
    ensures p + "::" + x == q + "::" + "x" && x != "" && !IsSpace(x[0]) && !IsSpace(x[|x| - 1])
  {
    var whole := q + "::" + "x";
    x := whole[|p| + 2..];
    assert whole[..|p| + 2] == p + "::" && whole == whole[..|p| + 2] + x;
    assert x[0] == (q + "::")[|p| + 2] && x[|x| - 1] == 'x';
  }

  /** Two scenarios of a project, one from each path, share an identity. */
  ghost predicate PathsMeet(project: string, p: string, q: string) {
    exists x, y :: AreTwins(project, p, q, x, y)
  }

  ghost predicate AreTwins(project: string, p: string, q: string, x: string, y: string) {
    IsScenarioName(x) && IsScenarioName(y) && project + "::" + p + "::" + x == project + "::" + q + "::" + y
  }

  lemma Regroup(a: string, separator: string, b: string, c: string)
    ensures a + separator + b + separator + c == a + separator + (b + separator + c)
  {
  }

  lemma SameBehindProject(project: string, p: string, q: string, x: string, y: string)
    ensures project + "::" + p + "::" + x == project + "::" + q + "::" + y <==> p + "::" + x == q + "::" + y
  {
    Regroup(project, "::", p, x);
    Regroup(project, "::", q, y);
    LastPartDiffers(project + "::", p + "::" + x, q + "::" + y);
  }

  lemma TwinsFrom(project: string, p: string, q: string, x: string, y: string)
    requires IsScenarioName(x) && IsScenarioName(y) && p + "::" + x == q + "::" + y
    ensures PathsMeet(project, p, q) && PathsMeet(project, q, p)
  {
    SameBehindProject(project, p, q, x, y);
    assert AreTwins(project, p, q, x, y) && AreTwins(project, q, p, y, x);
  }

  lemma TwinsLead(project: string, p: string, q: string, x: string, y: string)
    requires AreTwins(project, p, q, x, y)
    ensures p == q || LeadsInto(p, q) || LeadsInto(q, p)
  {
    NamesStartWithInk(x);
    NamesStartWithInk(y);
    SameBehindProject(project, p, q, x, y);
    InkLeads(p, q, x, y);
  }

  lemma InkLeads(p: string, q: string, x: string, y: string)
    requires p + "::" + x == q + "::" + y && x != "" && !IsSpace(x[0]) && y != "" && !IsSpace(y[0])
    ensures p == q || LeadsInto(p, q) || LeadsInto(q, p)
  {
    if |p| < |q| {
      SharedTextLeads(p, q, x, y);
    } else if |q| < |p| {
      SharedTextLeads(q, p, y, x);
    } else {
      assert p == (p + "::" + x)[..|p|] && q == (q + "::" + y)[..|q|];
    }
  }

  lemma LeadingPathsMeet(project: string, p: string, q: string)
    requires LeadsInto(p, q)
    ensures PathsMeet(project, p, q) && PathsMeet(project, q, p)
  {
    var x := LeadingMeets(p, q);
    TrimmedIsName(x);
    TrimmedIsName("x");
    TwinsFrom(project, p, q, x, "x");
  }

  /** Scenarios of different files can share an identity exactly if one path leads into the other. */
  lemma PathsMeetExactly(project: string, p: string, q: string)
    ensures PathsMeet(project, p, q) <==> p == q || LeadsInto(p, q) || LeadsInto(q, p)
  {
    if PathsMeet(project, p, q) {
      var x, y :| AreTwins(project, p, q, x, y);
      TwinsLead(project, p, q, x, y);
    }
    if p == q {
      TrimmedIsName("x");
      TwinsFrom(project, p, q, "x", "x");
    } else if LeadsInto(p, q) {
      LeadingPathsMeet(project, p, q);
    } else if LeadsInto(q, p) {
      LeadingPathsMeet(project, q, p);
    }
  }

  // ---------------------------------------------------------------- history texts

  function ParameterText(parameters: seq<(string, string)>): string {
    if parameters == [] then ""
    else ['\0'] + (parameters[0].0 + ['='] + (parameters[0].1 + ParameterText(parameters[1..])))
  }

  lemma {:induction false} ParameterTextGrows(a: seq<(string, string)>, b: seq<(string, string)>)
    ensures |ParameterText(a + b)| == |ParameterText(a)| + |ParameterText(b)|
    ensures |ParameterText(a)| >= 2 * |a|
  {
    if a == [] {
      assert a + b == b;
    } else {
      assert (a + b)[1..] == a[1..] + b;
      ParameterTextGrows(a[1..], b);
    }
  }

  /** What identity.HistoryID hashes: the test case id and the ordered logical parameters. */
  function HistoryText(testCaseId: string, parameters: seq<(string, string)>): string {
    testCaseId + ParameterText(parameters)
  }

  /** The builder loop of HistoryID. */
  method RunHistoryText(testCaseId: string, parameters: seq<(string, string)>) returns (text: string)
    ensures text == HistoryText(testCaseId, parameters)
  {
    text := testCaseId;
    assert parameters[0..] == parameters;
    for i := 0 to |parameters|
      invariant text + ParameterText(parameters[i..]) == HistoryText(testCaseId, parameters)
    {
      assert parameters[i..][1..] == parameters[i + 1..];
      ghost var before, rest := text, ParameterText(parameters[i + 1..]);
      text := text + ['\0'];
      text := text + parameters[i].0;
      text := text + ['='];
      text := text + parameters[i].1;
      assert text + rest == before + (['\0'] + (parameters[i].0 + ['='] + (parameters[i].1 + rest)));
    }
  }

  /** What keeps the text unambiguous; header cells and table values may hold any other character. */
  predicate Unambiguous(parameters: seq<(string, string)>) {
    forall p <- parameters :: '=' !in p.0 && '\0' !in p.1
  }

  lemma ValueEnds(v: string, w: string, s: string, t: string)
    requires '\0' !in v && '\0' !in w && v + s == w + t
    requires (s == "" || s[0] == '\0') && (t == "" || t[0] == '\0')
    ensures v == w && s == t
  {
    var whole := v + s;
    assert (forall i :: 0 <= i < |v| ==> whole[i] == v[i]) && (|v| < |whole| ==> whole[|v|] == s[0]);
    assert whole == w + t && (forall i :: 0 <= i < |w| ==> whole[i] == w[i]) && (|w| < |whole| ==> whole[|w|] == t[0]);
    assert |v| == |w|;
    assert v == (v + s)[..|v|] && w == (w + t)[..|w|];
    assert s == (v + s)[|v|..] && t == (w + t)[|w|..];
  }

  lemma {:induction false} ParameterTextInjective(ps: seq<(string, string)>, qs: seq<(string, string)>)
    requires Unambiguous(ps) && Unambiguous(qs) && ParameterText(ps) == ParameterText(qs)
    ensures ps == qs
  {
    if ps != [] && qs != [] {
      var p, q := ps[0], qs[0];
      var s, t := p.1 + ParameterText(ps[1..]), q.1 + ParameterText(qs[1..]);
      assert p.0 + ['='] + s == ParameterText(ps)[1..] && q.0 + ['='] + t == ParameterText(qs)[1..];
      FirstSeparatorSplits(p.0, q.0, '=', s, t);
      ValueEnds(p.1, q.1, ParameterText(ps[1..]), ParameterText(qs[1..]));
      ParameterTextInjective(ps[1..], qs[1..]);
      assert ps == [p] + ps[1..] && qs == [q] + qs[1..];
    }
  }

  /** The mirror image: no '=' in values and no NUL in names. */
  predicate UnambiguousBackwards(parameters: seq<(string, string)>) {
    forall p <- parameters :: '\0' !in p.0 && '=' !in p.1
  }

  lemma LastSeparatorSplits(s: string, t: string, separator: char, v: string, w: string)
    requires separator !in v && separator !in w && s + [separator] + v == t + [separator] + w
    ensures s == t && v == w
  {
    var whole := s + [separator] + v;
    assert whole == t + [separator] + w;
    assert whole[|s|] == separator && whole[|t|] == separator;
    assert forall i :: |s| < i < |whole| ==> whole[i] == v[i - |s| - 1];
    assert forall i :: |t| < i < |whole| ==> whole[i] == w[i - |t| - 1];
    assert |s| == |t|;
    assert s == whole[..|s|] == t && v == whole[|s| + 1..] == w;
  }

  function Entry(p: (string, string)): string {
    ['\0'] + p.0 + ['='] + p.1
  }

  lemma EntryFirst(name: string, value: string, rest: string, last: string)
    ensures ['\0'] + (name + ['='] + (value + (rest + last))) == ['\0'] + (name + ['='] + (value + rest)) + last
  {
    assert value + (rest + last) == (value + rest) + last;
    assert name + ['='] + ((value + rest) + last) == (name + ['='] + (value + rest)) + last;
  }

  lemma {:induction false} ParameterTextSnoc(ps: seq<(string, string)>, p: (string, string), entry: string)
    requires entry == Entry(p)
    ensures ParameterText(ps + [p]) == ParameterText(ps) + entry
  {
    if ps == [] {
      assert ps + [p] == [p] && [p][1..] == [];
    } else {
      assert (ps + [p])[0] == ps[0] && (ps + [p])[1..] == ps[1..] + [p];
      ParameterTextSnoc(ps[1..], p, entry);
      EntryFirst(ps[0].0, ps[0].1, ParameterText(ps[1..]), entry);
    }
  }

  lemma LastOf(ps: seq<(string, string)>)
    requires ps != []
    ensures var front, p := ps[..|ps| - 1], ps[|ps| - 1];
            ps == front + [p] && ParameterText(ps) == (ParameterText(front) + ['\0'] + p.0) + ['='] + p.1
  {
    var front, p := ps[..|ps| - 1], ps[|ps| - 1];
    assert ps == front + [p];
    ParameterTextSnoc(front, p, Entry(p));
    assert ParameterText(front) + Entry(p) == (ParameterText(front) + ['\0'] + p.0) + ['='] + p.1;
  }

  lemma {:induction false} ParameterTextInjectiveBackwards(ps: seq<(string, string)>, qs: seq<(string, string)>)
    requires UnambiguousBackwards(ps) && UnambiguousBackwards(qs) && ParameterText(ps) == ParameterText(qs)
    ensures ps == qs
    decreases |ps|
  {
    if ps != [] && qs != [] {
      var p, q := ps[|ps| - 1], qs[|qs| - 1];
      var front, front' := ps[..|ps| - 1], qs[..|qs| - 1];
      LastOf(ps);
      LastOf(qs);
      LastSeparatorSplits(ParameterText(front) + ['\0'] + p.0, ParameterText(front') + ['\0'] + q.0, '=', p.1, q.1);
      LastSeparatorSplits(ParameterText(front), ParameterText(front'), '\0', p.0, q.0);
      ParameterTextInjectiveBackwards(front, front');
    }
  }

  /** For ids of one length, the hashed text determines the id and the ordered parameter list. */
  lemma HistoryTextInjective(id: string, ps: seq<(string, string)>, id': string, ps': seq<(string, string)>)
    requires |id| == |id'| && HistoryText(id, ps) == HistoryText(id', ps')
    requires (Unambiguous(ps) && Unambiguous(ps')) || (UnambiguousBackwards(ps) && UnambiguousBackwards(ps'))
    ensures id == id' && ps == ps'
  {
    assert id == HistoryText(id, ps)[..|id|] && id' == HistoryText(id', ps')[..|id|];
    assert ParameterText(ps) == HistoryText(id, ps)[|id|..] && ParameterText(ps') == HistoryText(id', ps')[|id|..];
    if Unambiguous(ps) && Unambiguous(ps') {
      ParameterTextInjective(ps, ps');
    } else {
      ParameterTextInjectiveBackwards(ps, ps');
    }
  }

  /** Where the two separators may occur. */
  datatype Alphabet = Alphabet(nameEq: bool, nameNul: bool, valueEq: bool, valueNul: bool)

  predicate Allows(alphabet: Alphabet, parameters: seq<(string, string)>) {
    forall p <- parameters ::
      && ('=' in p.0 ==> alphabet.nameEq) && ('\0' in p.0 ==> alphabet.nameNul)
      && ('=' in p.1 ==> alphabet.valueEq) && ('\0' in p.1 ==> alphabet.valueNul)
  }

  lemma OneParameterText(name: string, value: string)
    ensures ParameterText([(name, value)]) == ['\0'] + name + ['='] + value
  {
    assert [(name, value)][1..] == [];
  }

  lemma TwoParametersText(name: string, value: string, name': string, value': string)
    ensures ParameterText([(name, value), (name', value')]) ==
            ['\0'] + name + ['='] + value + (['\0'] + name' + ['='] + value')
  {
    assert [(name, value), (name', value')][1..] == [(name', value')];
    OneParameterText(name', value');
  }

  /** Four pairs of lists share a text; each needs one of the separators twice over. */
  lemma HistoryTextCollisions()
    ensures ParameterText([("=", "")]) == ParameterText([("", "=")])
    ensures ParameterText([("", ""), ("", "")]) == ParameterText([("=\0", "")])
    ensures ParameterText([("", ""), ("", "")]) == ParameterText([("", "\0=")])
    ensures ParameterText([("", "\0"), ("", "")]) == ParameterText([("", ""), ("\0", "")])
  {
    OneParameterText("=", "");
    OneParameterText("", "=");
    OneParameterText("=\0", "");
    OneParameterText("", "\0=");
    TwoParametersText("", "", "", "");
    TwoParametersText("", "\0", "", "");
    TwoParametersText("", "", "\0", "");
  }

  ghost predicate TextsDiffer(alphabet: Alphabet, id: string) {
    forall ps, qs :: Allows(alphabet, ps) && Allows(alphabet, qs) && HistoryText(id, ps) == HistoryText(id, qs) ==>
      ps == qs
  }

  /**
   * The hashed text determines the parameter list exactly when it can be read from the front, with no '=' in names and
   * no NUL in values, or from the back, with no '=' in values and no NUL in names.
   */
  lemma HistoryTextExactly(alphabet: Alphabet, id: string)
    ensures TextsDiffer(alphabet, id) <==>
            (!alphabet.nameEq && !alphabet.valueNul) || (!alphabet.valueEq && !alphabet.nameNul)
  {
    if (!alphabet.nameEq && !alphabet.valueNul) || (!alphabet.valueEq && !alphabet.nameNul) {
      forall ps, qs | Allows(alphabet, ps) && Allows(alphabet, qs) && HistoryText(id, ps) == HistoryText(id, qs)
        ensures ps == qs
      {
        HistoryTextInjective(id, ps, id, qs);
      }
    } else {
      var ps, qs := Collision(alphabet);
      assert Allows(alphabet, ps) && Allows(alphabet, qs) && HistoryText(id, ps) == HistoryText(id, qs);
    }
  }

  lemma Collision(alphabet: Alphabet) returns (ps: seq<(string, string)>, qs: seq<(string, string)>)
    requires (alphabet.nameEq || alphabet.valueNul) && (alphabet.valueEq || alphabet.nameNul)
    ensures Allows(alphabet, ps) && Allows(alphabet, qs) && ParameterText(ps) == ParameterText(qs) && ps != qs
  {
    HistoryTextCollisions();
    if alphabet.nameEq {
      if alphabet.valueEq {
        ps, qs := [("=", "")], [("", "=")];
      } else {
        ps, qs := [("", ""), ("", "")], [("=\0", "")];
      }
    } else if alphabet.valueEq {
      ps, qs := [("", ""), ("", "")], [("", "\0=")];
    } else {
      ps, qs := [("", "\0"), ("", "")], [("", ""), ("\0", "")];
    }
    assert ps[0] != qs[0] || |ps| != |qs|;
  }
}
