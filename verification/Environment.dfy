/** internal/output/writer.go, WriteEnvironment: a map printed as a sorted properties file, and its reader. */
module Environment {
  import opened Text
  import opened Sorting

  function EscapeChar(c: char): string {
    match c
    case '\\' => "\\\\"
    case '\n' => "\\n"
    case '\r' => "\\r"
    case '\t' => "\\t"
    case '=' => "\\="
    case ':' => "\\:"
    case _ => [c]
  }

  /** escapeProperty: six characters get a backslash form. */
  function EscapeProperty(value: string): string {
    if value == "" then "" else EscapeChar(value[0]) + EscapeProperty(value[1..])
  }

  function Line(key: string, value: string): string {
    EscapeProperty(key) + ['='] + EscapeProperty(value)
  }

  /** One line for each key, in the given order. */
  function Lines(keys: seq<string>, values: map<string, string>): seq<string>
    requires forall k <- keys :: k in values
  {
    seq(|keys|, i requires 0 <= i < |keys| => Line(keys[i], values[keys[i]]))
  }

  function Terminated(lines: seq<string>): string {
    if lines == [] then "" else lines[0] + ['\n'] + Terminated(lines[1..])
  }

  /** All keys of a map, each once, in byte order. */
  ghost predicate Lists(keys: seq<string>, values: map<string, string>) {
    && multiset(keys) == multiset(values.Keys)
    && Sorted(StringLess, keys)
  }

  ghost predicate Encodes(data: string, values: map<string, string>) {
    exists keys :: Lists(keys, values) && (forall k <- keys :: k in values) && data == Terminated(Lines(keys, values))
  }

  lemma {:induction false} TerminatedSnoc(lines: seq<string>, line: string)
    ensures Terminated(lines + [line]) == Terminated(lines) + line + ['\n']
  {
    if lines != [] {
      assert (lines + [line])[1..] == lines[1..] + [line];
      TerminatedSnoc(lines[1..], line);
    }
  }

  /** The keys in whatever order the map yields them, then sorted. */
  method RunSortedKeys(values: map<string, string>) returns (keys: seq<string>)
    ensures Lists(keys, values)
  {
    var unsorted: seq<string> := [];
    var rest := values.Keys;
    while rest != {}
      invariant multiset(unsorted) + multiset(rest) == multiset(values.Keys)
      decreases rest
    {
      var key :| key in rest;
      unsorted := unsorted + [key];
      rest := rest - {key};
    }
    keys := StableSort(StringLess, unsorted);
    StringLessIsOrder();
    StableSortSorts(StringLess, unsorted);
  }

  lemma ListedKeys(keys: seq<string>, values: map<string, string>)
    requires Lists(keys, values)
    ensures forall k :: k in keys <==> k in values
  {
    forall k ensures k in keys <==> k in values {
      assert k in keys <==> k in multiset(keys);
      assert k in values <==> k in multiset(values.Keys);
    }
  }

  /** WriteEnvironment: collect and sort the keys, build the text line by line. */
  method RunWriteEnvironment(values: map<string, string>) returns (data: string)
    ensures Encodes(data, values)
  {
    var keys := RunSortedKeys(values);
    ListedKeys(keys, values);
    ghost var lines := Lines(keys, values);
    data := "";
    for i := 0 to |keys|
      invariant data == Terminated(lines[..i])
    {
      data := data + EscapeProperty(keys[i]) + ['='] + EscapeProperty(values[keys[i]]) + ['\n'];
      BuiltLine(lines, i, EscapeProperty(keys[i]), EscapeProperty(values[keys[i]]));
    }
    assert lines[..|keys|] == lines;
  }

  lemma BuiltLine(lines: seq<string>, i: nat, key: string, value: string)
    requires i < |lines| && lines[i] == key + ['='] + value
    ensures Terminated(lines[..i + 1]) == Terminated(lines[..i]) + key + ['='] + value + ['\n']
  {
    assert lines[..i + 1] == lines[..i] + [lines[i]];
    TerminatedSnoc(lines[..i], lines[i]);
    assert Terminated(lines[..i]) + lines[i] == Terminated(lines[..i]) + key + ['='] + value;
  }

  // ---------------------------------------------------------------- the bytes are unique

  /** The bytes depend on the map alone, not on the order in which it is iterated. */
  lemma EncodingIsUnique(data: string, data': string, values: map<string, string>)
    requires Encodes(data, values) && Encodes(data', values)
    ensures data == data'
  {
    var keys :| Lists(keys, values) && (forall k <- keys :: k in values) && data == Terminated(Lines(keys, values));
    var keys' :| Lists(keys', values) && (forall k <- keys' :: k in values) &&
      data' == Terminated(Lines(keys', values));
    StringLessIsOrder();
    SortedIsUnique(StringLess, keys, keys');
  }

  // ---------------------------------------------------------------- reading the file back

  function UnescapeChar(c: char): char {
    match c
    case 'n' => '\n'
    case 'r' => '\r'
    case 't' => '\t'
    case _ => c
  }

  function Unescape(s: string): string {
    if s == "" then ""
    else if s[0] == '\\' && |s| > 1 then [UnescapeChar(s[1])] + Unescape(s[2..])
    else [s[0]] + Unescape(s[1..])
  }

  /** A line cut at its first unescaped '='. */
  function CutLine(s: string): (string, string) {
    if s == "" then ("", "")
    else if s[0] == '=' then ("", s[1..])
    else if s[0] == '\\' && |s| > 1 then
      var (k, v) := CutLine(s[2..]);
      (s[..2] + k, v)
    else
      var (k, v) := CutLine(s[1..]);
      (s[..1] + k, v)
  }

  function ReadLines(lines: seq<string>): map<string, string> {
    if lines == [] then map[]
    else
      var (k, v) := CutLine(lines[0]);
      ReadLines(lines[1..]) + map[Unescape(k) := Unescape(v)]
  }

  /** Every line ends with a newline, so the piece after the last one is dropped. */
  function Read(data: string): map<string, string> {
    var pieces := Split(data, '\n');
    ReadLines(pieces[..|pieces| - 1])
  }

  lemma {:induction false} UnescapeUndoesEscape(s: string)
    ensures Unescape(EscapeProperty(s)) == s
  {
    if s != "" {
      var rest := EscapeProperty(s[1..]);
      UnescapeUndoesEscape(s[1..]);
      var e := EscapeChar(s[0]);
      if |e| == 2 {
        assert (e + rest)[2..] == rest;
      } else {
        assert (e + rest)[1..] == rest;
      }
    }
  }

  /** A character that means something in a properties file. */
  predicate IsSpecial(c: char) {
    c in {'\\', '\n', '\r', '\t', '=', ':'}
  }

  /** Character by character: a special one becomes a backslash and a letter or itself, any other stays as it is. */
  predicate IsEscapeOf(c: char, e: string) {
    if !IsSpecial(c) then e == [c]
    else |e| == 2 && e[0] == '\\' && e[1] == match c case '\n' => 'n' case '\r' => 'r' case '\t' => 't' case _ => c
  }

  lemma EscapesAreExact(c: char)
    ensures IsEscapeOf(c, EscapeChar(c))
  {
  }

  /** Every character is written that way, between what is before and what is behind it. */
  lemma EscapePropertyExactly(before: string, c: char, behind: string) returns (e: string)
    ensures IsEscapeOf(c, e)
    ensures EscapeProperty(before + ([c] + behind)) == EscapeProperty(before) + (e + EscapeProperty(behind))
  {
    e := EscapeChar(c);
    EscapesAreExact(c);
    EscapeConcat(before, [c] + behind);
    EscapeCons(c, behind, e);
  }

  lemma EscapeCons(c: char, behind: string, e: string)
    requires e == EscapeChar(c)
    ensures EscapeProperty([c] + behind) == e + EscapeProperty(behind)
  {
    assert ([c] + behind)[1..] == behind;
  }

  lemma {:induction false} EscapeConcat(a: string, b: string)
    ensures EscapeProperty(a + b) == EscapeProperty(a) + EscapeProperty(b)
  {
    if a == "" {
      assert a + b == b;
    } else {
      assert (a + b)[1..] == a[1..] + b;
      EscapeConcat(a[1..], b);
    }
  }

  lemma {:induction false} EscapedIsOneLine(s: string)
    ensures '\n' !in EscapeProperty(s)
  {
    if s != "" {
      EscapedIsOneLine(s[1..]);
    }
  }

  lemma CutPastEscaped(c: char, rest: string)
    ensures CutLine(EscapeChar(c) + rest) == (EscapeChar(c) + CutLine(rest).0, CutLine(rest).1)
  {
    var e := EscapeChar(c);
    assert (e + rest)[|e|..] == rest && (e + rest)[..|e|] == e;
  }

  lemma {:induction false} CutAfterKey(k: string, t: string)
    ensures CutLine(EscapeProperty(k) + ['='] + t) == (EscapeProperty(k), t)
  {
    if k == "" {
      assert (EscapeProperty(k) + ['='] + t)[1..] == t;
    } else {
      var rest := EscapeProperty(k[1..]) + ['='] + t;
      CutAfterKey(k[1..], t);
      CutPastEscaped(k[0], rest);
      assert EscapeProperty(k) + ['='] + t == EscapeChar(k[0]) + rest;
    }
  }

  lemma LineReadsBack(key: string, value: string)
    ensures var (k, v) := CutLine(Line(key, value));
            Unescape(k) == key && Unescape(v) == value
    ensures '\n' !in Line(key, value)
  {
    CutAfterKey(key, EscapeProperty(value));
    UnescapeUndoesEscape(key);
    UnescapeUndoesEscape(value);
    EscapedIsOneLine(key);
    EscapedIsOneLine(value);
  }

  lemma {:induction false} SplitTerminated(lines: seq<string>)
    requires forall line <- lines :: '\n' !in line
    ensures Split(Terminated(lines), '\n') == lines + [""]
  {
    if lines != [] {
      assert lines[0] in lines;
      SplitTerminated(lines[1..]);
      SplitAtSeparator(lines[0], '\n', Terminated(lines[1..]));
      assert lines + [""] == [lines[0]] + (lines[1..] + [""]);
    }
  }

  lemma ReadOneMore(key: string, value: string, rest: seq<string>)
    ensures ReadLines([Line(key, value)] + rest) == ReadLines(rest) + map[key := value]
  {
    LineReadsBack(key, value);
    assert ([Line(key, value)] + rest)[1..] == rest;
  }

  /** The map of the listed keys, built line by line. */
  function Collected(keys: seq<string>, values: map<string, string>): map<string, string>
    requires forall k <- keys :: k in values
  {
    if keys == [] then map[]
    else
      assert keys[0] in keys && forall k <- keys[1..] :: k in keys;
      Collected(keys[1..], values) + map[keys[0] := values[keys[0]]]
  }

  lemma {:induction false} CollectedAll(keys: seq<string>, values: map<string, string>)
    requires forall k <- keys :: k in values
    ensures forall k :: k in Collected(keys, values) <==> k in keys
    ensures forall k <- keys :: Collected(keys, values)[k] == values[k]
  {
    if keys != [] {
      assert keys[0] in keys && forall k <- keys[1..] :: k in keys;
      CollectedAll(keys[1..], values);
      assert forall k <- keys :: k == keys[0] || k in keys[1..];
    }
  }

  lemma {:induction false} ReadLinesOf(keys: seq<string>, values: map<string, string>)
    requires forall k <- keys :: k in values
    ensures ReadLines(Lines(keys, values)) == Collected(keys, values)
  {
    if keys != [] {
      assert keys[0] in keys && forall k <- keys[1..] :: k in keys;
      ReadLinesOf(keys[1..], values);
      assert Lines(keys, values) == [Line(keys[0], values[keys[0]])] + Lines(keys[1..], values);
      ReadOneMore(keys[0], values[keys[0]], Lines(keys[1..], values));
    }
  }

  lemma LinesAreLines(keys: seq<string>, values: map<string, string>)
    requires forall k <- keys :: k in values
    ensures forall line <- Lines(keys, values) :: '\n' !in line
  {
    forall i | 0 <= i < |keys| ensures '\n' !in Lines(keys, values)[i] {
      LineReadsBack(keys[i], values[keys[i]]);
    }
  }

  lemma ReadTerminated(lines: seq<string>)
    requires forall line <- lines :: '\n' !in line
    ensures Read(Terminated(lines)) == ReadLines(lines)
  {
    SplitTerminated(lines);
    assert (lines + [""])[..|lines|] == lines;
  }

  /** Reading an environment file gives back exactly the map it was written from. */
  lemma EncodingReadsBack(data: string, values: map<string, string>)
    requires Encodes(data, values)
    ensures Read(data) == values
  {
    var keys :| Lists(keys, values) && (forall k <- keys :: k in values) && data == Terminated(Lines(keys, values));
    LinesAreLines(keys, values);
    ReadTerminated(Lines(keys, values));
    ReadLinesOf(keys, values);
    CollectedAll(keys, values);
    ListedKeys(keys, values);
  }
}
