/** The Go string functions the model uses, on ASCII text. */
module Text {
  predicate IsSpace(c: char) {
    c == ' ' || ('\t' <= c <= '\r')
  }

  function TrimLeft(s: string): (r: string)
    ensures r == "" || !IsSpace(r[0])
    ensures |r| <= |s| && r == s[|s| - |r|..]
  {
    if s != "" && IsSpace(s[0]) then TrimLeft(s[1..]) else s
  }

  function TrimRight(s: string): (r: string)
    ensures r == "" || !IsSpace(r[|r| - 1])
    ensures r <= s
    ensures s != "" && !IsSpace(s[0]) ==> r != ""
  {
    if s != "" && IsSpace(s[|s| - 1]) then TrimRight(s[..|s| - 1]) else s
  }

  /** strings.TrimSpace */
  function TrimSpace(s: string): (r: string)
    ensures r == "" || (!IsSpace(r[0]) && !IsSpace(r[|r| - 1]))
  {
    TrimRight(TrimLeft(s))
  }

  lemma {:induction false} TrimLeftSpaces(s: string, i: nat)
    requires i < |s| - |TrimLeft(s)|
    ensures IsSpace(s[i])
    decreases i
  {
    assert s != "" && TrimLeft(s) != s;
    if i > 0 {
      TrimLeftSpaces(s[1..], i - 1);
    }
  }

  lemma {:induction false} TrimRightSpaces(s: string, i: nat)
    requires |TrimRight(s)| <= i < |s|
    ensures IsSpace(s[i])
    decreases |s|
  {
    assert IsSpace(s[|s| - 1]);
    if i < |s| - 1 {
      TrimRightSpaces(s[..|s| - 1], i);
    }
  }

  lemma TrimmedParts(s: string, before: string, left: string, right: string, after: string)
    requires s == before + left && left == right + after
    ensures s == before + right + after
  {
  }

  predicate IsAllSpace(s: string) {
    forall i :: 0 <= i < |s| ==> IsSpace(s[i])
  }

  /** What is trimmed away on either side is whitespace. */
  lemma TrimSpaceExactly(s: string, trimmed: string) returns (before: string, after: string)
    requires trimmed == TrimSpace(s)
    ensures s == before + trimmed + after
    ensures IsAllSpace(before) && IsAllSpace(after)
  {
    var left := TrimLeft(s);
    before := TrimmedLeft(s, left);
    after := TrimmedRight(left, trimmed);
    TrimmedParts(s, before, left, trimmed, after);
  }

  lemma TrimmedLeft(s: string, left: string) returns (before: string)
    requires left == TrimLeft(s)
    ensures s == before + left && IsAllSpace(before)
  {
    var n := |s| - |left|;
    before := s[..n];
    forall i | 0 <= i < n ensures IsSpace(s[i]) {
      TrimLeftSpaces(s, i);
    }
    SpaceBefore(s, n, left);
  }

  lemma SpaceBefore(s: string, n: nat, left: string)
    requires n <= |s| && left == s[n..] && forall i :: 0 <= i < n ==> IsSpace(s[i])
    ensures s == s[..n] + left && IsAllSpace(s[..n])
  {
  }

  lemma TrimmedRight(s: string, right: string) returns (after: string)
    requires right == TrimRight(s)
    ensures s == right + after && IsAllSpace(after)
  {
    after := s[|right|..];
    forall i | 0 <= i < |after| ensures IsSpace(after[i]) {
      TrimRightSpaces(s, |right| + i);
    }
  }

  predicate IsBlank(s: string) {
    TrimSpace(s) == ""
  }

  /** mapping.first: the first argument that is not blank. */
  function First(values: seq<string>): string {
    if values == [] then "" else if !IsBlank(values[0]) then values[0] else First(values[1..])
  }

  function FirstWithout(blank: string -> bool, values: seq<string>): string {
    if values == [] then "" else if !blank(values[0]) then values[0] else FirstWithout(blank, values[1..])
  }

  lemma {:induction false} FirstIsWithout(blank: string -> bool, values: seq<string>)
    requires forall s: string :: blank(s) <==> IsBlank(s)
    ensures First(values) == FirstWithout(blank, values)
  {
    if values != [] {
      FirstIsWithout(blank, values[1..]);
      assert blank(values[0]) <==> IsBlank(values[0]);
    }
  }

  lemma {:induction false} FirstWithoutAt(blank: string -> bool, values: seq<string>, i: nat)
    requires i <= |values| && (forall j :: 0 <= j < i ==> blank(values[j])) && (i < |values| ==> !blank(values[i]))
    ensures FirstWithout(blank, values) == if i < |values| then values[i] else ""
  {
    if i > 0 {
      assert forall j :: 0 <= j < i - 1 ==> values[1..][j] == values[j + 1];
      FirstWithoutAt(blank, values[1..], i - 1);
    }
  }

  /** The first value that is not blank, or nothing. */
  lemma FirstExactly(values: seq<string>, i: nat)
    requires i <= |values| && forall j :: 0 <= j < i ==> IsBlank(values[j])
    requires i < |values| ==> !IsBlank(values[i])
    ensures First(values) == if i < |values| then values[i] else ""
  {
    FirstIsWithout(IsBlank, values);
    FirstWithoutAt(IsBlank, values, i);
  }

  lemma StartsInk(s: string)
    requires s != "" && !IsSpace(s[0])
    ensures !IsBlank(s)
  {
  }

  function ReplaceChar(s: string, from: char, to: char): (r: string)
    ensures |r| == |s|
    ensures forall i :: 0 <= i < |s| ==> r[i] == if s[i] == from then to else s[i]
  {
    seq(|s|, i requires 0 <= i < |s| => if s[i] == from then to else s[i])
  }

  function LowerChar(c: char): char {
    if 'A' <= c <= 'Z' then c - 'A' + 'a' else c
  }

  /** strings.ToLower on ASCII: it keeps the length. */
  function Lower(s: string): (r: string)
    ensures |r| == |s|
    ensures forall i :: 0 <= i < |s| ==> r[i] == LowerChar(s[i])
  {
    seq(|s|, i requires 0 <= i < |s| => LowerChar(s[i]))
  }

  /** strings.Split for a one-character separator. */
  function Split(s: string, sep: char): (parts: seq<string>)
    ensures |parts| >= 1
    ensures forall part <- parts :: sep !in part
  {
    if s == "" then [""]
    else
      var rest := Split(s[1..], sep);
      if s[0] == sep then [""] + rest else [[s[0]] + rest[0]] + rest[1..]
  }

  /** strings.Join for a one-character separator. */
  function Join(parts: seq<string>, sep: char): string {
    if parts == [] then "" else if |parts| == 1 then parts[0] else parts[0] + [sep] + Join(parts[1..], sep)
  }

  lemma {:induction false} SplitWithoutSeparator(s: string, sep: char)
    requires sep !in s
    ensures Split(s, sep) == [s]
  {
    if s != "" {
      SplitWithoutSeparator(s[1..], sep);
      assert s == [s[0]] + s[1..];
    }
  }

  lemma {:induction false} JoinSplit(s: string, sep: char)
    ensures Join(Split(s, sep), sep) == s
  {
    if s != "" {
      var rest := Split(s[1..], sep);
      JoinSplit(s[1..], sep);
      if s[0] == sep {
        assert ([""] + rest)[1..] == rest;
      } else {
        assert ([[s[0]] + rest[0]] + rest[1..])[1..] == rest[1..];
      }
      assert s == [s[0]] + s[1..];
    }
  }

  lemma {:induction false} SplitAtSeparator(a: string, sep: char, b: string)
    requires sep !in a
    ensures Split(a + [sep] + b, sep) == [a] + Split(b, sep)
  {
    var s := a + [sep] + b;
    if a == "" {
      assert s[1..] == b;
    } else {
      assert s[1..] == a[1..] + [sep] + b;
      SplitAtSeparator(a[1..], sep, b);
      assert a == [a[0]] + a[1..];
    }
  }

  /** Splitting undoes joining when no part holds the separator. */
  lemma {:induction false} SplitJoin(parts: seq<string>, sep: char)
    requires parts != [] && forall part <- parts :: sep !in part
    ensures Split(Join(parts, sep), sep) == parts
  {
    var head, tail := parts[0], parts[1..];
    assert head in parts && parts == [head] + tail;
    if tail == [] {
      SplitWithoutSeparator(head, sep);
    } else {
      SplitJoin(tail, sep);
      SplitAtSeparator(head, sep, Join(tail, sep));
    }
  }

  /** The part before the last separator is unique when the part after it holds none. */
  lemma LastSeparatorSplits(a: string, b: string, sep: char, s: string, t: string)
    requires sep !in s && sep !in t
    requires a + [sep] + s == b + [sep] + t
    ensures a == b && s == t
  {
    var whole := a + [sep] + s;
    assert whole[|a|] == sep && forall i :: |a| < i < |whole| ==> whole[i] == s[i - |a| - 1];
    assert whole == b + [sep] + t && whole[|b|] == sep && forall i :: |b| < i < |whole| ==> whole[i] == t[i - |b| - 1];
    assert |a| == |b|;
    assert a == whole[..|a|] && s == whole[|a| + 1..];
  }

  /** The part after the first separator is unique when the part before it holds none. */
  lemma FirstSeparatorSplits(a: string, b: string, sep: char, s: string, t: string)
    requires sep !in a && sep !in b
    requires a + [sep] + s == b + [sep] + t
    ensures a == b && s == t
  {
    SplitAtSeparator(a, sep, s);
    SplitAtSeparator(b, sep, t);
    var whole := a + [sep] + s;
    assert a == Split(whole, sep)[0] && s == whole[|a| + 1..];
    assert t == (b + [sep] + t)[|b| + 1..];
  }

  predicate IsDigit(c: char) {
    '0' <= c <= '9'
  }

  function Digits(n: nat): (s: string)
    ensures |s| >= 1 && forall c <- s :: IsDigit(c)
    ensures |s| == 1 <==> n < 10
  {
    if n < 10 then ['0' + n as char] else Digits(n / 10) + ['0' + (n % 10) as char]
  }

  /** fmt's %d */
  function Decimal(n: int): (s: string)
    ensures |s| >= 1 && forall c <- s :: IsDigit(c) || c == '-'
    ensures s[0] == '-' <==> n < 0
  {
    if n < 0 then "-" + Digits(-n) else assert Digits(n)[0] in Digits(n); Digits(n)
  }

  /** The number the digits spell. */
  function ValueOf(digits: string): nat
    requires forall c <- digits :: IsDigit(c)
  {
    if digits == "" then 0
    else
      assert digits[|digits| - 1] in digits && IsDigit(digits[|digits| - 1]);
      assert forall c <- digits[..|digits| - 1] :: c in digits;
      10 * ValueOf(digits[..|digits| - 1]) + (digits[|digits| - 1] - '0') as nat
  }

  lemma {:induction false} DigitsSpell(n: nat)
    ensures ValueOf(Digits(n)) == n
    ensures n > 0 ==> Digits(n)[0] != '0'
  {
    var digits := Digits(n);
    if n < 10 {
      assert digits[..0] == "";
    } else {
      DigitsSpell(n / 10);
      assert digits[..|digits| - 1] == Digits(n / 10);
    }
  }

  lemma {:induction false} DigitsInjective(a: nat, b: nat)
    requires Digits(a) == Digits(b)
    ensures a == b
  {
    if a >= 10 {
      var s := Digits(a);
      assert Digits(a / 10) == s[..|s| - 1] == Digits(b / 10);
      assert s[|s| - 1] == '0' + (a % 10) as char == '0' + (b % 10) as char;
      DigitsInjective(a / 10, b / 10);
    }
  }

  lemma DecimalInjective(a: int, b: int)
    requires Decimal(a) == Decimal(b)
    ensures a == b
  {
    if a < 0 {
      assert Digits(-a) == Decimal(a)[1..] && Digits(-b) == Decimal(b)[1..];
      DigitsInjective(-a, -b);
    } else {
      DigitsInjective(a, b);
    }
  }
}
