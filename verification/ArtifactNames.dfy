/** internal/output/writer.go: the names of result files, containers, attachments and temporary files. */
module ArtifactNames {
  import opened Text

  const TEMP_INFIX := ".tmp-"
  const ATTACHMENT_INFIX := "-attachment."

  predicate Contains(s: string, part: string) {
    exists i :: 0 <= i <= |s| && part <= s[i..]
  }

  lemma PartExactly(name: string, part: string)
    ensures Contains(name, part) <==> exists before: string, after: string :: name == before + part + after
  {
    if Contains(name, part) {
      var i :| 0 <= i <= |name| && part <= name[i..];
      assert name == name[..i] + part + name[i + |part|..];
    }
    forall before: string, after: string | name == before + part + after ensures Contains(name, part) {
      assert name[|before|..] == part + after;
    }
  }

  type uint32 = x: int | 0 <= x < 0x1_0000_0000

  function LastStar(pattern: string): (k: nat)
    requires '*' in pattern
    ensures k < |pattern| && pattern[k] == '*' && '*' !in pattern[k + 1..]
  {
    var last := |pattern| - 1;
    if pattern[last] == '*' then last else LastStar(pattern[..last])
  }

  /** os.CreateTemp: random digits in place of the last '*' of the pattern, or behind it. */
  function Filled(pattern: string, digits: string): string {
    if '*' in pattern then pattern[..LastStar(pattern)] + digits + pattern[LastStar(pattern) + 1..]
    else pattern + digits
  }

  function TempName(name: string, random: uint32): string {
    Filled("." + name + TEMP_INFIX, Decimal(random))
  }

  /** The names os.CreateTemp may choose here. */
  predicate IsTemp(name: string) {
    "." <= name && Contains(name, TEMP_INFIX)
  }

  lemma FilledStartsAndEnds(name: string, infix: string, digits: string)
    requires '*' !in infix
    ensures var pattern, filled := "." + name + infix, Filled("." + name + infix, digits);
            && "." <= filled && |filled| + 1 >= |pattern| + |digits|
            && exists i :: 0 <= i <= |filled| && infix <= filled[i..]
  {
    var pattern, filled := "." + name + infix, Filled("." + name + infix, digits);
    if '*' in pattern {
      var k := LastStar(pattern);
      assert pattern[0] == '.' && 0 < k;
      assert forall j :: |name| < j < |pattern| ==> pattern[j] == infix[j - |name| - 1];
      assert filled[k + |digits|..] == pattern[k + 1..];
      assert pattern[k + 1..][|name| - k..] == infix;
      assert infix <= filled[|name| + |digits|..];
    } else {
      assert infix <= filled[|name| + 1..];
    }
  }

  lemma TempNameIsTemp(name: string, random: uint32)
    ensures IsTemp(TempName(name, random)) && |TempName(name, random)| > |name|
  {
    FilledStartsAndEnds(name, TEMP_INFIX, Decimal(random));
  }

  function ResultName(uuid: string): string {
    uuid + "-result.json"
  }

  lemma ResultNameInjective(u: string, v: string)
    requires ResultName(u) == ResultName(v)
    ensures u == v
  {
    assert u == ResultName(u)[..|u|] && v == ResultName(v)[..|v|];
  }

  /** A UUID neither starts with a dot nor is empty. */
  predicate IsPlain(uuid: string) {
    uuid != "" && uuid[0] != '.'
  }

  /** The names of this program's artifacts; attachments are named by a UUID as well. */
  predicate IsArtifactName(name: string) {
    || name == "environment.properties" || name == "executor.json" || name == "categories.json"
    || (IsPlain(name) &&
        (HasSuffix(name, "-result.json") || HasSuffix(name, "-container.json") || Contains(name, ATTACHMENT_INFIX)))
  }

  predicate HasSuffix(s: string, suffix: string) {
    |suffix| <= |s| && s[|s| - |suffix|..] == suffix
  }

  lemma SuffixExactly(name: string, suffix: string)
    ensures HasSuffix(name, suffix) <==> exists before: string :: name == before + suffix
  {
    if HasSuffix(name, suffix) {
      assert name == name[..|name| - |suffix|] + suffix;
    }
    forall before: string | name == before + suffix ensures HasSuffix(name, suffix) {
    }
  }

  lemma ArtifactNamesAreNotTemp(name: string)
    requires IsArtifactName(name)
    ensures !IsTemp(name)
  {
    assert "environment.properties"[0] == 'e' && "executor.json"[0] == 'e' && "categories.json"[0] == 'c';
    assert name[0] != '.';
  }
}
