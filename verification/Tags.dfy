/** internal/metadata/metadata.go: the backslash automaton behind `key:value` tags. */
module Tags {
  import opened Text

  /** The number of backslashes right before position i. */
  function Run(s: string, i: nat): nat
    requires i <= |s|
  {
    if i > 0 && s[i - 1] == '\\' then 1 + Run(s, i - 1) else 0
  }

  /** A separating colon: one that an even run of backslashes precedes. */
  predicate Separates(s: string, i: nat)
    requires i < |s|
  {
    s[i] == ':' && Run(s, i) % 2 == 0
  }

  /** unescape after a prefix: `escaped` says that the last character was an unpaired backslash. */
  function Unescaped(s: string, escaped: bool): string {
    if s == "" then (if escaped then "\\" else "")
    else if escaped then [s[0]] + Unescaped(s[1..], false)
    else if s[0] == '\\' then Unescaped(s[1..], true)
    else [s[0]] + Unescaped(s[1..], false)
  }

  /** A backslash in front of every colon and every backslash. */
  function Escape(s: string): string {
    if s == "" then ""
    else (if s[0] == ':' || s[0] == '\\' then ['\\', s[0]] else [s[0]]) + Escape(s[1..])
  }

  /** The builder loop of unescape. */
  method RunUnescape(value: string) returns (text: string)
    ensures text == Unescaped(value, false)
  {
    text := "";
    var escaped := false;
    assert value[0..] == value;
    for i := 0 to |value|
      invariant text + Unescaped(value[i..], escaped) == Unescaped(value, false)
    {
      assert value[i..][1..] == value[i + 1..];
      if escaped {
        text := text + [value[i]];
        escaped := false;
      } else if value[i] == '\\' {
        escaped := true;
      } else {
        text := text + [value[i]];
      }
    }
    if escaped {
      text := text + "\\";
    }
  }

  /** The first separating colon from a position on, or the end of the text. */
  function FirstSeparator(s: string, from: nat): (r: nat)
    requires from <= |s|
    ensures from <= r <= |s|
    decreases |s| - from
  {
    if from == |s| || Separates(s, from) then from else FirstSeparator(s, from + 1)
  }

  ghost predicate NoneBefore(s: string, from: nat, to: nat)
    requires to <= |s|
  {
    forall i: nat {:trigger Separates(s, i)} :: from <= i < to ==> !Separates(s, i)
  }

  /** It is the only position that separates, or the end, with no separating position before it. */
  lemma {:induction false} FirstSeparatorExactly(s: string, from: nat, r: nat)
    requires from <= r <= |s|
    ensures FirstSeparator(s, from) == r <==> NoneBefore(s, from, r) && (r < |s| ==> Separates(s, r))
    decreases |s| - from
  {
    if from < |s| && !Separates(s, from) {
      if from < r {
        FirstSeparatorExactly(s, from + 1, r);
      }
    } else if from < |s| && from < r {
      assert !NoneBefore(s, from, r);
    }
  }

  /** Both sides of a cut, unescaped and trimmed. */
  function Sides(left: string, right: string): (string, string, bool) {
    var key, value := TrimSpace(Unescaped(left, false)), TrimSpace(Unescaped(right, false));
    (key, value, key != "" && value != "")
  }

  /** splitTag: cut at the first separating colon; both sides must be non-empty. */
  function SplitOf(tag: string): (string, string, bool) {
    var i := FirstSeparator(tag, 0);
    if i == |tag| then ("", "", false) else Sides(tag[..i], tag[i + 1..])
  }

  /** The scan of splitTag with its `escaped` flag. */
  method SplitTag(tag: string) returns (key: string, value: string, ok: bool)
    ensures (key, value, ok) == SplitOf(tag)
  {
    var escaped := false;
    for index := 0 to |tag|
      invariant escaped <==> Run(tag, index) % 2 == 1
      invariant NoneBefore(tag, 0, index)
    {
      if escaped {
        escaped := false;
        continue;
      }
      if tag[index] == '\\' {
        escaped := true;
        continue;
      }
      if tag[index] == ':' {
        FirstSeparatorExactly(tag, 0, index);
        var left := RunUnescape(tag[..index]);
        var right := RunUnescape(tag[index + 1..]);
        key, value := TrimSpace(left), TrimSpace(right);
        return key, value, key != "" && value != "";
      }
    }
    FirstSeparatorExactly(tag, 0, |tag|);
    return "", "", false;
  }

  lemma {:induction false} UnescapeUndoesEscape(s: string)
    ensures Unescaped(Escape(s), false) == s
  {
    if s != "" {
      var rest := Escape(s[1..]);
      UnescapeUndoesEscape(s[1..]);
      if s[0] == ':' || s[0] == '\\' {
        assert Escape(s)[1..][1..] == rest && Escape(s)[1..][0] == s[0];
      } else {
        assert Escape(s)[1..] == rest;
      }
    }
  }

  /** Behind escaped text no backslash is left unpaired, and inside it no colon separates. */
  lemma {:induction false} EscapedTextHolds(s: string, t: string)
    ensures NoneBefore(Escape(s) + t, 0, |Escape(s)|)
    ensures Run(Escape(s) + t, |Escape(s)|) % 2 == 0
    decreases |s|
  {
    if s != "" {
      var n := |s| - 1;
      var last := if s[n] == ':' || s[n] == '\\' then ['\\', s[n]] else [s[n]];
      EscapeLast(s);
      EscapedTextHolds(s[..n], last + t);
      var whole := Escape(s) + t;
      assert whole == Escape(s[..n]) + (last + t);
      var k := |Escape(s[..n])|;
      assert whole[k] == last[0];
      assert Run(whole, k + 1) == if last[0] == '\\' then Run(whole, k) + 1 else 0;
      if |last| == 2 {
        assert whole[k + 1] == s[n];
        assert Run(whole, k + 2) == if s[n] == '\\' then Run(whole, k + 1) + 1 else 0;
      }
      forall i: nat | i < |Escape(s)| ensures !Separates(whole, i) {
        assert i < k || i == k || i == k + 1;
      }
    }
  }

  lemma {:induction false} EscapeLast(s: string)
    requires s != ""
    ensures var n := |s| - 1;
            Escape(s) == Escape(s[..n]) + if s[n] == ':' || s[n] == '\\' then ['\\', s[n]] else [s[n]]
  {
    if |s| == 1 {
      assert s[1..] == "" && s[..0] == "";
    } else {
      EscapeLast(s[1..]);
      assert s[1..][..|s| - 2] == s[..|s| - 1][1..];
    }
  }

  /** A tag whose first separator is the colon between two texts is cut there. */
  lemma CutBetween(left: string, right: string)
    requires FirstSeparator(left + [':'] + right, 0) == |left|
    ensures SplitOf(left + [':'] + right) == Sides(left, right)
  {
    var tag := left + [':'] + right;
    assert tag[..|left|] == left && tag[|left| + 1..] == right;
  }

  /** Two sides that unescape to a key and a value. */
  lemma SidesExactly(left: string, right: string, key: string, value: string)
    requires Unescaped(left, false) == key && Unescaped(right, false) == value
    ensures Sides(left, right) == (TrimSpace(key), TrimSpace(value), !IsBlank(key) && !IsBlank(value))
  {
  }

  lemma SeparatorBetween(k: string, right: string)
    ensures FirstSeparator(Escape(k) + [':'] + right, 0) == |Escape(k)|
  {
    EscapedTextHolds(k, [':'] + right);
    var tag := Escape(k) + [':'] + right;
    assert tag == Escape(k) + ([':'] + right);
    FirstSeparatorExactly(tag, 0, |Escape(k)|);
  }

  /** A key and a value written with escapes are read back as they were, without the space around them. */
  lemma SplitUndoesEscape(k: string, v: string)
    ensures SplitOf(Escape(k) + [':'] + Escape(v)) == (TrimSpace(k), TrimSpace(v), !IsBlank(k) && !IsBlank(v))
  {
    var left, right := Escape(k), Escape(v);
    SeparatorBetween(k, right);
    CutBetween(left, right);
    UnescapeUndoesEscape(k);
    UnescapeUndoesEscape(v);
    SidesExactly(left, right, k, v);
  }
}
